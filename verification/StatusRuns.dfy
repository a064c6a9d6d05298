/**
  Runs of a usage report's reconciles: how many writes they attempt, and which changes they can miss.
 */
module StatusRuns {
  import opened Common
  import opened Order
  import opened Attribution
  import Conditions
  import Fingerprint
  import opened StatusWrites

  // ----- classes alone -----

  /** The class a reconcile wants, from the stored class and what it sees. */
  function Wanted(c: Class, seen: Seen): Class {
    match seen
    case ProfileMissing => c.(ready := Some(NOT_FOUND))
    case PodsUnlisted => c
    case Found(computed) => ViewClass(computed, Some(COMPUTED))
  }

  lemma IntendedIsWanted(stored: Status, e: Event)
    ensures ClassOf(Intended(stored, e)) == Wanted(ClassOf(stored), e.seen)
  {
    Conditions.FindAfterSet(stored.conditions, ReadyCondition(NOT_FOUND, e.now), READY);
    Conditions.FindAfterSet(stored.conditions, ReadyCondition(COMPUTED, e.now), READY);
  }

  ghost predicate PlainEvent(e: Event) {
    e.seen.Found? ==> Plain(e.seen.computed)
  }

  ghost predicate PlainRun(es: seq<Event>) {
    es == [] || (PlainRun(es[..|es| - 1]) && PlainEvent(es[|es| - 1]))
  }

  /** The stored status after a run. */
  function After(s: Status, es: seq<Event>): Status {
    if es == [] then s else Next(After(s, es[..|es| - 1]), es[|es| - 1])
  }

  /** How many writes a run attempts. */
  function Attempts(s: Status, es: seq<Event>): nat {
    if es == [] then 0
    else Attempts(s, es[..|es| - 1]) + if Writes(After(s, es[..|es| - 1]), es[|es| - 1]) then 1 else 0
  }

  /** The stored class after a run: it follows the wanted class whenever the API server accepts. */
  function Drive(c: Class, es: seq<Event>): Class {
    if es == [] then c
    else
      var e, before := es[|es| - 1], Drive(c, es[..|es| - 1]);
      if e.accepted then Wanted(before, e.seen) else before
  }

  /** How many reconciles of a run want another class than the stored one. */
  function Disagreements(c: Class, es: seq<Event>): nat {
    if es == [] then 0
    else
      var before := Drive(c, es[..|es| - 1]);
      Disagreements(c, es[..|es| - 1]) + if Wanted(before, es[|es| - 1].seen) != before then 1 else 0
  }

  /** How often the stored class changes. */
  function Changes(c: Class, es: seq<Event>): nat {
    if es == [] then 0
    else Changes(c, es[..|es| - 1]) + if Drive(c, es) != Drive(c, es[..|es| - 1]) then 1 else 0
  }

  predicate AllAccepted(es: seq<Event>) {
    es == [] || (AllAccepted(es[..|es| - 1]) && es[|es| - 1].accepted)
  }

  lemma WriteIffDisagreement(s: Status, e: Event)
    requires Plain(s.view) && PlainEvent(e)
    ensures Writes(s, e) <==> Wanted(ClassOf(s), e.seen) != ClassOf(s)
    ensures Plain(Next(s, e).view)
    ensures ClassOf(Next(s, e)) == if e.accepted then Wanted(ClassOf(s), e.seen) else ClassOf(s)
  {
    IntendedIsWanted(s, e);
    MarksAreClasses(Intended(s, e), s);
  }

  /**
    Over any run, whatever the API server does, a write is attempted exactly when the wanted class differs
    from the stored one.
   */
  lemma {:induction false} AttemptsAreDisagreements(s: Status, es: seq<Event>)
    requires Plain(s.view) && PlainRun(es)
    ensures Plain(After(s, es).view) && ClassOf(After(s, es)) == Drive(ClassOf(s), es)
    ensures Attempts(s, es) == Disagreements(ClassOf(s), es)
  {
    if es != [] {
      var n := |es| - 1;
      AttemptsAreDisagreements(s, es[..n]);
      WriteIffDisagreement(After(s, es[..n]), es[n]);
    }
  }

  /** When every write succeeds, the writes of a run are as many as its changes of class. */
  lemma WritesAreClassChanges(s: Status, es: seq<Event>)
    requires Plain(s.view) && PlainRun(es) && AllAccepted(es)
    ensures Attempts(s, es) == Changes(ClassOf(s), es)
  {
    AttemptsAreDisagreements(s, es);
    AcceptedDisagreementsChange(ClassOf(s), es);
  }

  lemma {:induction false} AcceptedDisagreementsChange(c: Class, es: seq<Event>)
    requires AllAccepted(es)
    ensures Disagreements(c, es) == Changes(c, es)
  {
    if es != [] {
      AcceptedDisagreementsChange(c, es[..|es| - 1]);
    }
  }

  // ----- what is stored -----

  /** A reconcile that computed a report, attempted to write it, and was accepted. */
  predicate Stores(before: Status, e: Event) {
    e.seen.Found? && e.accepted && Writes(before, e)
  }

  /** The last report of a run that was stored, and when; the first one as long as none was. */
  function LastReport(s: Status, es: seq<Event>): (Computed, int) {
    if es == [] then (s.view, s.lastUpdated)
    else
      var n := |es| - 1;
      if Stores(After(s, es[..n]), es[n]) then (es[n].seen.computed, es[n].now) else LastReport(s, es[..n])
  }

  /** After any run the stored figures are those of the last report that was stored, whole, and carry its time. */
  lemma {:induction false} ViewIsLastReport(s: Status, es: seq<Event>)
    ensures (After(s, es).view, After(s, es).lastUpdated) == LastReport(s, es)
  {
    if es != [] {
      var n := |es| - 1;
      ViewIsLastReport(s, es[..n]);
      OneMoreReconcile(After(s, es[..n]), es[n]);
      assert After(s, es) == Next(After(s, es[..n]), es[n]);
    }
  }

  lemma OneMoreReconcile(s: Status, e: Event)
    ensures if Stores(s, e)
            then Next(s, e).view == e.seen.computed && Next(s, e).lastUpdated == e.now
            else Next(s, e).view == s.view && Next(s, e).lastUpdated == s.lastUpdated
  {
    match e.seen
    case Found(c) => WrittenIsComputed(s, c, e.now, e.accepted);
    case ProfileMissing => MissingKeepsTheView(s, e.now, e.accepted);
    case PodsUnlisted =>
  }

  // ----- repetition -----

  ghost predicate SameSight(a: Seen, b: Seen) {
    match (a, b)
    case (ProfileMissing, ProfileMissing) => true
    case (PodsUnlisted, PodsUnlisted) => true
    case (Found(x), Found(y)) => ViewClass(x, None) == ViewClass(y, None)
    case _ => false
  }

  /** A reconcile that sees what the last accepted one saw writes nothing, however names are spelled. */
  lemma RepeatWritesNothing(s: Status, first: Event, again: Event)
    requires first.accepted && SameSight(first.seen, again.seen)
    ensures !Writes(Next(s, first), again)
  {
    var t := Next(s, first);
    IntendedIsWanted(s, first);
    IntendedIsWanted(t, again);
    if Writes(s, first) {
      MarksAreClasses(Intended(t, again), t);
    } else {
      UnwrittenMark(s, first, again);
    }
  }

  /** When nothing was written, the stored status compares equal to what was seen, and so to what is seen again. */
  lemma UnwrittenMark(s: Status, first: Event, again: Event)
    requires SameSight(first.seen, again.seen)
    ensures MarkOf(Intended(s, first)) == MarkOf(Intended(s, again))
  {
    IntendedIsWanted(s, first);
    IntendedIsWanted(s, again);
    MarksAreClasses(Intended(s, first), Intended(s, again));
  }

  /** A lost write is attempted again by the next reconcile that sees the same. */
  lemma LostWritesAreRetried(s: Status, first: Event, again: Event)
    requires !first.accepted && SameSight(first.seen, again.seen)
    ensures Writes(Next(s, first), again) <==> Writes(s, first)
  {
    UnwrittenMark(s, first, again);
  }

  // ----- an idle cluster -----

  /** A computed status whose breakdowns list some usage. */
  ghost predicate BreaksDown(c: Computed, usage: Usage, nsTokens: map<string, Tokens>, cost: real) {
    var total := SumTotal(usage, usage.Keys);
    && c.tokens == Sum(usage, usage.Keys)
    && Lists(c.byModel, usage, cost, total) && RowKeys(c.byModel) == usage.Keys
    && ListsNamespaces(c.byNamespace, usage, nsTokens, cost, total) && NamespacesOf(c.byNamespace) == nsTokens.Keys
  }

  /** A listing shows each key once, with its tokens. */
  lemma {:induction false} ListedOnce(rows: seq<ModelCost>, usage: Usage, cost: real, total: int,
                                      r: Fingerprint.ModelRow)
    requires Lists(rows, usage, cost, total)
    ensures RowKeys(rows) <= usage.Keys
    ensures var key := ModelKey(r.model, r.namespace);
            multiset(Image(rows, AsModelRow))[r] ==
            if key in RowKeys(rows) && usage[key] == Tokens(r.input, r.output) then 1 else 0
  {
    if rows != [] {
      var n := |rows| - 1;
      ListedOnce(rows[..n], usage, cost, total, r);
    }
  }

  lemma {:induction false} NamespaceListedOnce(rows: seq<NamespaceCost>, usage: Usage, nsTokens: map<string, Tokens>,
      cost: real, total: int, r: Fingerprint.NamespaceRow)
    requires ListsNamespaces(rows, usage, nsTokens, cost, total)
    ensures NamespacesOf(rows) <= nsTokens.Keys
    ensures multiset(Image(rows, AsNamespaceRow))[r] ==
            if r.namespace in NamespacesOf(rows) && nsTokens[r.namespace].Total() == r.count then 1 else 0
  {
    if rows != [] {
      NamespaceListedOnce(rows[..|rows| - 1], usage, nsTokens, cost, total, r);
    }
  }

  /** Two listings of the same usage are the same up to order, whatever cost they share out. */
  lemma SameUsageSameClass(c: Computed, d: Computed, usage: Usage, nsTokens: map<string, Tokens>, cost: real,
        cost': real)
    requires BreaksDown(c, usage, nsTokens, cost) && BreaksDown(d, usage, nsTokens, cost') && c.period == d.period
    ensures ViewClass(c, None) == ViewClass(d, None)
  {
    var total := SumTotal(usage, usage.Keys);
    SameModelRows(c.byModel, d.byModel, usage, cost, cost', total);
    SameNamespaceRows(c.byNamespace, d.byNamespace, usage, nsTokens, cost, cost', total);
  }

  lemma SameModelRows(rows: seq<ModelCost>, rows': seq<ModelCost>, usage: Usage, cost: real, cost': real, total: int)
    requires Lists(rows, usage, cost, total) && Lists(rows', usage, cost', total) && RowKeys(rows) == RowKeys(rows')
    ensures multiset(Image(rows, AsModelRow)) == multiset(Image(rows', AsModelRow))
  {
    forall r: Fingerprint.ModelRow
      ensures multiset(Image(rows, AsModelRow))[r] == multiset(Image(rows', AsModelRow))[r]
    {
      ListedOnce(rows, usage, cost, total, r);
      ListedOnce(rows', usage, cost', total, r);
    }
  }

  lemma SameNamespaceRows(rows: seq<NamespaceCost>, rows': seq<NamespaceCost>,
      usage: Usage, nsTokens: map<string, Tokens>,
      cost: real, cost': real, total: int)
    requires ListsNamespaces(rows, usage, nsTokens, cost, total) &&
        ListsNamespaces(rows', usage, nsTokens, cost', total)
    requires NamespacesOf(rows) == NamespacesOf(rows')
    ensures multiset(Image(rows, AsNamespaceRow)) == multiset(Image(rows', AsNamespaceRow))
  {
    forall r: Fingerprint.NamespaceRow
      ensures multiset(Image(rows, AsNamespaceRow))[r] == multiset(Image(rows', AsNamespaceRow))[r]
    {
      NamespaceListedOnce(rows, usage, nsTokens, cost, total, r);
      NamespaceListedOnce(rows', usage, nsTokens, cost', total, r);
    }
  }

  /**
    On an idle cluster nothing is written: a second reconcile in the same period, over the same pods in
    any order, with maps iterated in any order and costs that have moved on, finds nothing to send.
   */
  lemma IdleClusterWritesNothing(s: Status, first: Event, again: Event,
      pods: seq<Pod>, others: seq<Pod>, filter: set<string>, usage: Usage, nsTokens: map<string, Tokens>,
      usage': Usage, nsTokens': map<string, Tokens>, cost: real, cost': real)
    requires first.accepted && first.seen.Found? && again.seen.Found?
    requires first.seen.computed.period == again.seen.computed.period
    requires multiset(pods) == multiset(others)
    requires Tallies(usage, pods, filter) && Agree(usage, nsTokens)
    requires BreaksDown(first.seen.computed, usage, nsTokens, cost)
    requires Tallies(usage', others, filter) && Agree(usage', nsTokens')
    requires BreaksDown(again.seen.computed, usage', nsTokens', cost')
    ensures !Writes(Next(s, first), again)
  {
    PodOrderIsIrrelevant(usage, usage', pods, others, filter);
    AgreementIsUnique(usage, nsTokens, nsTokens');
    SameUsageSameClass(first.seen.computed, again.seen.computed, usage, nsTokens, cost, cost');
    RepeatWritesNothing(s, first, again);
  }

  lemma AgreementIsUnique(usage: Usage, nsTokens: map<string, Tokens>, nsTokens': map<string, Tokens>)
    requires Agree(usage, nsTokens) && Agree(usage, nsTokens')
    ensures nsTokens == nsTokens'
  {
  }

  // ----- the reports the controller builds -----

  /** Namespaces and label values as Kubernetes has them, without a slash. */
  predicate LegalNames(pods: seq<Pod>) {
    forall pod :: pod in pods ==> '/' !in pod.namespace && '/' !in pod.model
  }

  /** A status that the controller computed from some pods. */
  ghost predicate BuiltFrom(c: Computed, pods: seq<Pod>, filter: set<string>, usage: Usage,
        nsTokens: map<string, Tokens>, cost: real) {
    LegalNames(pods) && Tallies(usage, pods, filter) && BreaksDown(c, usage, nsTokens, cost)
  }

  ghost predicate Built(c: Computed) {
    exists pods, filter, usage, nsTokens, cost :: BuiltFrom(c, pods, filter, usage, nsTokens, cost)
  }

  lemma {:induction false} KeyListed(rows: seq<ModelCost>, i: nat)
    requires i < |rows|
    ensures rows[i].Key() in RowKeys(rows)
  {
    if i < |rows| - 1 {
      KeyListed(rows[..|rows| - 1], i);
    }
  }

  /** Every row of a built report is plain. */
  lemma BuiltRowIsPlain(c: Computed, pods: seq<Pod>, filter: set<string>, usage: Usage, nsTokens: map<string, Tokens>,
      cost: real, i: nat)
    requires BuiltFrom(c, pods, filter, usage, nsTokens, cost) && i < |c.byModel|
    ensures !Fingerprint.Slashed(AsModelRow(c.byModel[i]))
  {
    var key := c.byModel[i].Key();
    KeyListed(c.byModel, i);
    assert TalliesKey(usage, pods, filter, key);
    HasCountedIsMembership(pods, filter, key);
  }

  lemma BuiltIsPlain(c: Computed)
    requires Built(c)
    ensures Plain(c)
  {
    var pods, filter, usage, nsTokens, cost :| BuiltFrom(c, pods, filter, usage, nsTokens, cost);
    ImageAt(c.byModel, AsModelRow);
    forall r | r in Image(c.byModel, AsModelRow) ensures '/' !in r.namespace {
      var i :| 0 <= i < |c.byModel| && Image(c.byModel, AsModelRow)[i] == r;
      BuiltRowIsPlain(c, pods, filter, usage, nsTokens, cost, i);
    }
  }

  ghost predicate BuiltRun(es: seq<Event>) {
    es == [] || (BuiltRun(es[..|es| - 1]) && (es[|es| - 1].seen.Found? ==> Built(es[|es| - 1].seen.computed)))
  }

  lemma {:induction false} BuiltRunIsPlain(es: seq<Event>)
    requires BuiltRun(es)
    ensures PlainRun(es)
  {
    if es != [] {
      BuiltRunIsPlain(es[..|es| - 1]);
      if es[|es| - 1].seen.Found? {
        BuiltIsPlain(es[|es| - 1].seen.computed);
      }
    }
  }

  /** For the reports that the controller builds the guard is exact, with no condition on names left to meet. */
  lemma BuiltReportsAreWrittenExactly(s: Status, es: seq<Event>)
    requires (s.view.byModel == [] || Built(s.view)) && BuiltRun(es)
    ensures Attempts(s, es) == Disagreements(ClassOf(s), es)
    ensures AllAccepted(es) ==> Attempts(s, es) == Changes(ClassOf(s), es)
  {
    if s.view.byModel != [] {
      BuiltIsPlain(s.view);
    }
    BuiltRunIsPlain(es);
    AttemptsAreDisagreements(s, es);
    if AllAccepted(es) {
      WritesAreClassChanges(s, es);
    }
  }

  // ----- what the comparison alone could miss -----

  /** Some report would change the stored class and yet not be written. */
  ghost predicate CanMissAChange(s: Status) {
    exists e: Event :: Missed(s, e)
  }

  ghost predicate Missed(s: Status, e: Event) {
    e.seen.Found? && !Writes(s, e) && Wanted(ClassOf(s), e.seen) != ClassOf(s)
  }

  function AsModelCost(row: Fingerprint.ModelRow): ModelCost {
    ModelCost(row.model, row.namespace, Tokens(row.input, row.output), 0.0, 0.0)
  }

  lemma ThereAndBack(rows: seq<Fingerprint.ModelRow>)
    ensures Image(Image(rows, AsModelCost), AsModelRow) == rows
  {
  }

  /** A change can be missed exactly when the stored report is ready and one of its rows has a slash in a name. */
  lemma CanMissIff(s: Status)
    ensures CanMissAChange(s)
       <==> Readiness(s.conditions) == Some(COMPUTED)
            && exists r :: r in Image(s.view.byModel, AsModelRow) && Fingerprint.Slashed(r)
  {
    var rows := Image(s.view.byModel, AsModelRow);
    Fingerprint.MisreadIffSlashed(rows);
    if Readiness(s.conditions) == Some(COMPUTED) && Fingerprint.Misread(rows) {
      var other :| Fingerprint.SameImages(rows, other) && multiset(rows) != multiset(other);
      MisreadIsMissed(s, other);
    }
    if e: Event :| Missed(s, e) {
      MissedIsMisread(s, e);
    }
  }

  lemma MisreadIsMissed(s: Status, other: seq<Fingerprint.ModelRow>)
    requires Readiness(s.conditions) == Some(COMPUTED)
    requires Fingerprint.SameImages(Image(s.view.byModel, AsModelRow), other)
    requires multiset(Image(s.view.byModel, AsModelRow)) != multiset(other)
    ensures CanMissAChange(s)
  {
    ThereAndBack(other);
    SwapIsMissed(s, Image(other, AsModelCost));
  }

  lemma SwapIsMissed(s: Status, byModel: seq<ModelCost>)
    requires Readiness(s.conditions) == Some(COMPUTED)
    requires ModelStrings(s.view) == ModelStrings(s.view.(byModel := byModel))
    requires multiset(Image(s.view.byModel, AsModelRow)) != multiset(Image(byModel, AsModelRow))
    ensures CanMissAChange(s)
  {
    var e := Event(Found(s.view.(byModel := byModel)), 0, true);
    SwapIsUnmarked(s, e);
    SwapIsAnotherClass(s, e);
    assert Missed(s, e);
  }

  lemma SwapIsUnmarked(s: Status, e: Event)
    requires Readiness(s.conditions) == Some(COMPUTED) && e.seen.Found?
    requires e.seen.computed == s.view.(byModel := e.seen.computed.byModel)
    requires ModelStrings(s.view) == ModelStrings(e.seen.computed)
    ensures !Writes(s, e)
  {
    IntendedIsWanted(s, e);
  }

  lemma SwapIsAnotherClass(s: Status, e: Event)
    requires e.seen.Found? && multiset(Image(s.view.byModel, AsModelRow)) !=
        multiset(Image(e.seen.computed.byModel, AsModelRow))
    ensures Wanted(ClassOf(s), e.seen) != ClassOf(s)
  {
  }

  lemma MissedIsMisread(s: Status, e: Event)
    requires Missed(s, e)
    ensures Readiness(s.conditions) == Some(COMPUTED) && Fingerprint.Misread(Image(s.view.byModel, AsModelRow))
  {
    IntendedIsWanted(s, e);
    var rows, other := Image(s.view.byModel, AsModelRow), Image(e.seen.computed.byModel, AsModelRow);
    SameLength(Image(rows, Fingerprint.RenderModel), Image(other, Fingerprint.RenderModel));
    assert Fingerprint.SameImages(rows, other) && multiset(rows) != multiset(other);
  }
}
