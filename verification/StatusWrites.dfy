/**
  When a usage report's status is written.  Every reconcile computes a status; it is sent to the API
  server only if something a reader would call a change has happened: the period, the token counts, the
  breakdown rows up to order, or the Ready condition.  Costs and times drift on every reconcile and do
  not count.

  `ClassOf` is what counts.  `MarkOf` is what the code compares, with the breakdown rows rendered as strings.
 */
module StatusWrites {
  import opened Common
  import Order
  import Attribution
  import opened Conditions
  import Fingerprint
  import ReportCosts
  import BreakEven

  /** What a reconcile computes. */
  datatype Computed = Computed(period: string, start: int, end: int, tokens: Attribution.Tokens,
                               figures: ReportCosts.Figures, breakEven: seq<BreakEven.Entry>,
                               byModel: seq<Attribution.ModelCost>, byNamespace: seq<Attribution.NamespaceCost>)

  datatype Status = Status(view: Computed, lastUpdated: int, conditions: seq<Condition>)

  const READY := "Ready"
  const COMPUTED := (IsTrue, "ReportComputed")
  const NOT_FOUND := (IsFalse, "CostProfileNotFound")

  /** A reconcile: what it finds, when, and whether the API server takes a write. */
  datatype Seen = ProfileMissing | PodsUnlisted | Found(computed: Computed)

  datatype Event = Event(seen: Seen, now: int, accepted: bool)

  function Readiness(cs: seq<Condition>): Option<(Truth, string)> {
    match Find(cs, READY)
    case None => None
    case Some(c) => Some((c.status, c.reason))
  }

  function ReadyCondition(as_: (Truth, string), now: int): Condition {
    Condition(READY, as_.0, as_.1, now)
  }

  /** The status a reconcile would like to see stored. */
  function Intended(stored: Status, e: Event): Status {
    match e.seen
    case ProfileMissing => stored.(conditions := Set(stored.conditions, ReadyCondition(NOT_FOUND, e.now)))
    case PodsUnlisted => stored
    case Found(computed) => Status(computed, e.now, Set(stored.conditions, ReadyCondition(COMPUTED, e.now)))
  }

  // ----- what counts as a change -----

  function AsModelRow(row: Attribution.ModelCost): Fingerprint.ModelRow {
    Fingerprint.ModelRow(row.namespace, row.model, row.tokens.input, row.tokens.output)
  }

  function AsNamespaceRow(row: Attribution.NamespaceCost): Fingerprint.NamespaceRow {
    Fingerprint.NamespaceRow(row.namespace, row.tokenCount)
  }

  datatype Class = Class(period: string, tokens: Attribution.Tokens, models: multiset<Fingerprint.ModelRow>,
                         namespaces: multiset<Fingerprint.NamespaceRow>, ready: Option<(Truth, string)>)

  function ViewClass(view: Computed, ready: Option<(Truth, string)>): Class {
    Class(view.period, view.tokens, multiset(Order.Image(view.byModel, AsModelRow)),
          multiset(Order.Image(view.byNamespace, AsNamespaceRow)), ready)
  }

  function ClassOf(s: Status): Class {
    ViewClass(s.view, Readiness(s.conditions))
  }

  datatype Mark = Mark(period: string, tokens: Attribution.Tokens, models: multiset<string>,
                       namespaces: multiset<Fingerprint.NamespaceRow>, ready: Option<(Truth, string)>)

  function ModelStrings(view: Computed): multiset<string> {
    multiset(Order.Image(Order.Image(view.byModel, AsModelRow), Fingerprint.RenderModel))
  }

  function MarkOf(s: Status): Mark {
    Mark(s.view.period, s.view.tokens, ModelStrings(s.view), ClassOf(s).namespaces, Readiness(s.conditions))
  }

  /** Namespaces as Kubernetes allows them. */
  ghost predicate Plain(view: Computed) {
    Fingerprint.NoSlash(Order.Image(view.byModel, AsModelRow))
  }

  /** The code's comparison sees every change of class, and nothing else, when namespaces have no slash. */
  lemma MarksAreClasses(s: Status, t: Status)
    ensures ClassOf(s) == ClassOf(t) ==> MarkOf(s) == MarkOf(t)
    ensures Plain(s.view) && Plain(t.view) ==> (MarkOf(s) == MarkOf(t) ==> ClassOf(s) == ClassOf(t))
  {
    Fingerprint.ModelListsCompare(Order.Image(s.view.byModel, AsModelRow), Order.Image(t.view.byModel, AsModelRow));
  }

  predicate Writes(stored: Status, e: Event) {
    MarkOf(Intended(stored, e)) != MarkOf(stored)
  }

  function Next(stored: Status, e: Event): Status {
    if Writes(stored, e) && e.accepted then Intended(stored, e) else stored
  }

  /** The Ready condition that a lookup finds. */
  predicate IsReady(cs: seq<Condition>, status: Truth, reason: string) {
    Find(cs, "Ready").Some? && Find(cs, "Ready").value.status == status && Find(cs, "Ready").value.reason == reason
  }

  /** Only the Ready condition has been touched. */
  ghost predicate OthersAsBefore(before: seq<Condition>, after: seq<Condition>) {
    && (forall kind :: kind != "Ready" ==> Find(after, kind) == Find(before, kind))
    && (forall x: Condition :: x.kind != "Ready" ==> multiset(after)[x] == multiset(before)[x])
  }

  /** A report that is written is stored whole: every computed figure, row and entry, and the time. */
  lemma WrittenIsComputed(s: Status, c: Computed, now: int, accepted: bool)
    ensures var e := Event(Found(c), now, accepted);
            && OthersAsBefore(s.conditions, Next(s, e).conditions)
            && if Writes(s, e) && accepted then
                 && Next(s, e).view == c && Next(s, e).lastUpdated == now
                 && IsReady(Next(s, e).conditions, IsTrue, "ReportComputed")
               else Next(s, e) == s
  {
    var e := Event(Found(c), now, accepted);
    if Writes(s, e) && accepted {
      var ready := ReadyCondition(COMPUTED, now);
      SetTouchesReady(s.conditions, ready);
      assert Next(s, e) == Status(c, now, Set(s.conditions, ready));
    } else {
      assert Next(s, e) == s;
    }
  }

  /** A missing profile leaves the figures of the last report in place, and says why it is not ready. */
  lemma MissingKeepsTheView(s: Status, now: int, accepted: bool)
    ensures var e := Event(ProfileMissing, now, accepted);
            && OthersAsBefore(s.conditions, Next(s, e).conditions)
            && Next(s, e).view == s.view && Next(s, e).lastUpdated == s.lastUpdated
            && (accepted ==> IsReady(Next(s, e).conditions, IsFalse, "CostProfileNotFound"))
  {
    SetTouchesReady(s.conditions, ReadyCondition(NOT_FOUND, now));
  }

  lemma SetTouchesReady(cs: seq<Condition>, c: Condition)
    requires c.kind == "Ready"
    ensures OthersAsBefore(cs, Set(cs, c)) && IsReady(Set(cs, c), c.status, c.reason)
  {
    FindAfterSet(cs, c, "Ready");
    forall kind: string | kind != "Ready" ensures Find(Set(cs, c), kind) == Find(cs, kind) {
      FindAfterSet(cs, c, kind);
    }
    forall x: Condition | x.kind != "Ready" ensures multiset(Set(cs, c))[x] == multiset(cs)[x] {
      OthersStay(cs, c, x);
    }
  }

  // ----- what a class is -----

  /** How many rows there are of a model in a namespace with these tokens. */
  function RowsLike(rows: seq<Attribution.ModelCost>, namespace: string, model: string, input: int, output: int): nat {
    if rows == [] then 0
    else
      var row := rows[|rows| - 1];
      RowsLike(rows[..|rows| - 1], namespace, model, input, output)
      + if row.namespace == namespace && row.model == model && row.tokens.input == input && row.tokens.output == output
        then 1 else 0
  }

  function NamespaceRowsLike(rows: seq<Attribution.NamespaceCost>, namespace: string, tokenCount: int): nat {
    if rows == [] then 0
    else
      NamespaceRowsLike(rows[..|rows| - 1], namespace, tokenCount)
      + if rows[|rows| - 1].namespace == namespace && rows[|rows| - 1].tokenCount == tokenCount then 1 else 0
  }

  lemma {:induction false} RowsCounted(rows: seq<Attribution.ModelCost>, r: Fingerprint.ModelRow)
    ensures multiset(Order.Image(rows, AsModelRow))[r]
         == RowsLike(rows, r.namespace, r.model, r.input, r.output)
  {
    if rows != [] {
      var n := |rows| - 1;
      RowsCounted(rows[..n], r);
      assert Order.Image(rows, AsModelRow) == Order.Image(rows[..n], AsModelRow) + [AsModelRow(rows[n])];
    }
  }

  lemma {:induction false} NamespaceRowsCounted(rows: seq<Attribution.NamespaceCost>, r: Fingerprint.NamespaceRow)
    ensures multiset(Order.Image(rows, AsNamespaceRow))[r] == NamespaceRowsLike(rows, r.namespace, r.count)
  {
    if rows != [] {
      var n := |rows| - 1;
      NamespaceRowsCounted(rows[..n], r);
      assert Order.Image(rows, AsNamespaceRow) == Order.Image(rows[..n], AsNamespaceRow) + [AsNamespaceRow(rows[n])];
    }
  }

  ghost predicate ModelRowsAgree(s: Computed, t: Computed) {
    forall namespace, model, input, output ::
      RowsLike(s.byModel, namespace, model, input, output) == RowsLike(t.byModel, namespace, model, input, output)
  }

  ghost predicate NamespaceRowsAgree(s: Computed, t: Computed) {
    forall namespace, tokenCount ::
      NamespaceRowsLike(s.byNamespace, namespace, tokenCount) == NamespaceRowsLike(t.byNamespace, namespace, tokenCount)
  }

  predicate SameReadiness(a: seq<Condition>, b: seq<Condition>) {
    match (Find(a, "Ready"), Find(b, "Ready"))
    case (None, None) => true
    case (Some(c), Some(d)) => c.status == d.status && c.reason == d.reason
    case _ => false
  }

  /**
    Two statuses are of one class exactly when period and token counts are the same, every model row and every
    namespace row is there as often with the same tokens, and Ready has the same status and reason.
   */
  lemma SameClassIff(s: Status, t: Status)
    ensures ClassOf(s) == ClassOf(t)
       <==> && s.view.period == t.view.period
            && s.view.tokens.input == t.view.tokens.input && s.view.tokens.output == t.view.tokens.output
            && ModelRowsAgree(s.view, t.view) && NamespaceRowsAgree(s.view, t.view)
            && SameReadiness(s.conditions, t.conditions)
  {
    ModelRowsIff(s.view, t.view);
    NamespaceRowsIff(s.view, t.view);
  }

  lemma ModelRowsIff(s: Computed, t: Computed)
    ensures multiset(Order.Image(s.byModel, AsModelRow)) == multiset(Order.Image(t.byModel, AsModelRow))
       <==> ModelRowsAgree(s, t)
  {
    var a, b := multiset(Order.Image(s.byModel, AsModelRow)), multiset(Order.Image(t.byModel, AsModelRow));
    forall r: Fingerprint.ModelRow
      ensures a[r] == RowsLike(s.byModel, r.namespace, r.model, r.input, r.output)
      ensures b[r] == RowsLike(t.byModel, r.namespace, r.model, r.input, r.output)
    {
      RowsCounted(s.byModel, r);
      RowsCounted(t.byModel, r);
    }
    if a == b {
      forall namespace, model, input, output
        ensures RowsLike(s.byModel, namespace, model, input, output)
             == RowsLike(t.byModel, namespace, model, input, output)
      {
        RowsCounted(s.byModel, Fingerprint.ModelRow(namespace, model, input, output));
        RowsCounted(t.byModel, Fingerprint.ModelRow(namespace, model, input, output));
      }
    }
  }

  lemma NamespaceRowsIff(s: Computed, t: Computed)
    ensures multiset(Order.Image(s.byNamespace, AsNamespaceRow)) == multiset(Order.Image(t.byNamespace, AsNamespaceRow))
       <==> NamespaceRowsAgree(s, t)
  {
    var a := multiset(Order.Image(s.byNamespace, AsNamespaceRow));
    var b := multiset(Order.Image(t.byNamespace, AsNamespaceRow));
    forall r: Fingerprint.NamespaceRow
      ensures a[r] == NamespaceRowsLike(s.byNamespace, r.namespace, r.count)
      ensures b[r] == NamespaceRowsLike(t.byNamespace, r.namespace, r.count)
    {
      NamespaceRowsCounted(s.byNamespace, r);
      NamespaceRowsCounted(t.byNamespace, r);
    }
    if a == b {
      forall namespace, tokenCount
        ensures NamespaceRowsLike(s.byNamespace, namespace, tokenCount)
             == NamespaceRowsLike(t.byNamespace, namespace, tokenCount)
      {
        NamespaceRowsCounted(s.byNamespace, Fingerprint.NamespaceRow(namespace, tokenCount));
        NamespaceRowsCounted(t.byNamespace, Fingerprint.NamespaceRow(namespace, tokenCount));
      }
    }
  }

  // ----- the code -----

  predicate ConditionTransitioned(previous: seq<Condition>, current: seq<Condition>, kind: string) {
    var a, b := Find(previous, kind), Find(current, kind);
    if a.None? && b.None? then false
    else if a.None? || b.None? then true
    else a.value.status != b.value.status || a.value.reason != b.value.reason
  }

  method ContentEqual(a: Status, b: Status) returns (same: bool)
    ensures same <==> MarkOf(a).(ready := None) == MarkOf(b).(ready := None)
  {
    if a.view.period != b.view.period {
      return false;
    }
    if a.view.tokens.input != b.view.tokens.input || a.view.tokens.output != b.view.tokens.output {
      return false;
    }
    var am, bm := Order.Image(a.view.byModel, AsModelRow), Order.Image(b.view.byModel, AsModelRow);
    var an, bn := Order.Image(a.view.byNamespace, AsNamespaceRow), Order.Image(b.view.byNamespace, AsNamespaceRow);
    if |a.view.byModel| != |b.view.byModel| || |a.view.byNamespace| != |b.view.byNamespace| {
      DifferentSizes(Order.Image(am, Fingerprint.RenderModel), Order.Image(bm, Fingerprint.RenderModel));
      DifferentSizes(an, bn);
      return false;
    }
    var sameModels := Fingerprint.ModelBreakdownsEqual(am, bm);
    if !sameModels {
      return false;
    }
    same := Fingerprint.NamespaceBreakdownsEqual(an, bn);
  }

  /** The guard of the write: readiness moved, or the content did. */
  lemma WriteIffSeen(previous: Status, report: Status, e: Event)
    requires report == Intended(previous, e)
    ensures Writes(previous, e)
       <==> ConditionTransitioned(previous.conditions, report.conditions, READY)
            || MarkOf(previous).(ready := None) != MarkOf(report).(ready := None)
  {
  }

  lemma DifferentSizes<T>(xs: seq<T>, ys: seq<T>)
    ensures |xs| != |ys| ==> multiset(xs) != multiset(ys)
  {
    if multiset(xs) == multiset(ys) {
      Order.SameLength(xs, ys);
    }
  }

  /** One report object on the API server, and the reconciler's calls to it. */
  class UsageReportReconciler {
    var stored: Status
    var attempts: nat

    constructor (stored: Status)
      ensures this.stored == stored && attempts == 0
    {
      this.stored, attempts := stored, 0;
    }

    method Update(status: Status, accepted: bool) returns (ok: bool)
      modifies this
      ensures attempts == old(attempts) + 1 && ok == accepted
      ensures stored == if accepted then status else old(stored)
    {
      attempts := attempts + 1;
      if accepted {
        stored := status;
      }
      return accepted;
    }

    method HandleMissingCostProfile(now: int, accepted: bool)
      modifies this
      ensures var e := Event(ProfileMissing, now, accepted);
              && stored == Next(old(stored), e)
              && attempts == old(attempts) + (if Writes(old(stored), e) then 1 else 0)
      ensures stored.view == old(stored).view && stored.lastUpdated == old(stored).lastUpdated
      ensures accepted ==> IsReady(stored.conditions, IsFalse, "CostProfileNotFound")
      ensures OthersAsBefore(old(stored).conditions, stored.conditions)
    {
      var report := stored;
      MissingKeepsTheView(report, now, accepted);
      FindAfterSet(report.conditions, ReadyCondition(NOT_FOUND, now), READY);
      var existing := Find(report.conditions, READY);
      if existing.Some? && existing.value.status == IsFalse && existing.value.reason == "CostProfileNotFound" {
        return;
      }
      report := report.(conditions := Set(report.conditions, Condition(READY, IsFalse, "CostProfileNotFound", now)));
      var _ := Update(report, accepted);
    }

    method ApplyStatusIfChanged(c: Computed, now: int, accepted: bool) returns (ok: bool)
      modifies this
      ensures var e := Event(Found(c), now, accepted);
              && stored == Next(old(stored), e)
              && attempts == old(attempts) + (if Writes(old(stored), e) then 1 else 0)
              && ok == (accepted || !Writes(old(stored), e))
      ensures if attempts > old(attempts) && accepted then
                && stored.view == c && stored.lastUpdated == now
                && IsReady(stored.conditions, IsTrue, "ReportComputed")
              else stored == old(stored)
      ensures OthersAsBefore(old(stored).conditions, stored.conditions)
    {
      var report := stored;
      WrittenIsComputed(report, c, now, accepted);
      var previous := report;
      report := report.(view := c, lastUpdated := now);
      report := report.(conditions := Set(report.conditions, Condition(READY, IsTrue, "ReportComputed", now)));
      WriteIffSeen(previous, report, Event(Found(c), now, accepted));
      var readyTransitioned := ConditionTransitioned(previous.conditions, report.conditions, READY);
      if !readyTransitioned {
        var same := ContentEqual(previous, report);
        if same {
          return true;
        }
      }
      ok := Update(report, accepted);
    }

    /** A reconcile attempts a write exactly when the class it wants differs from the stored one. */
    method Reconcile(e: Event) returns (ok: bool)
      modifies this
      ensures stored == Next(old(stored), e)
      ensures attempts == old(attempts) + (if Writes(old(stored), e) then 1 else 0)
      ensures Plain(old(stored).view) && (e.seen.Found? ==> Plain(e.seen.computed)) ==>
                (Writes(old(stored), e) <==> ClassOf(Intended(old(stored), e)) != ClassOf(old(stored)))
    {
      MarksAreClasses(Intended(stored, e), stored);
      match e.seen
      case ProfileMissing =>
        HandleMissingCostProfile(e.now, e.accepted);
        ok := true;
      case PodsUnlisted =>
        // the listing failed: try again later
        ok := true;
      case Found(computed) =>
        ok := ApplyStatusIfChanged(computed, e.now, e.accepted);
    }
  }
}
