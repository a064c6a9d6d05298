/**
  Token rates from scraped counters.  A pod's counters only grow, or drop to zero when its server
  restarts; the controller keeps the last accepted snapshot of each pod, drops scrapes that come less
  than ten seconds after it, and turns the difference between accepted snapshots into an hourly rate.

  `Watched` follows one pod through a run of productions, restarts and scrapes and keeps the books:
  what the pod really produced, and what the accepted snapshots credit it with.
 */
module TokenRates {
  import opened Common

  datatype Counts = Counts(input: real, output: real) {
    function Plus(that: Counts): Counts {
      Counts(input + that.input, output + that.output)
    }

    function Minus(that: Counts): Counts {
      Counts(input - that.input, output - that.output)
    }

    function Total(): real {
      input + output
    }

    predicate AtMost(that: Counts) {
      input <= that.input && output <= that.output
    }
  }

  const ZERO := Counts(0.0, 0.0)

  datatype Snapshot = Snapshot(at: int, tokens: Counts)

  datatype Rate = Rate(inputPerHour: real, outputPerHour: real, totalPerHour: real)

  const SECOND := 1_000_000_000
  const MIN_SNAPSHOT_INTERVAL := 10 * SECOND

  function ElapsedHours(prev: Snapshot, curr: Snapshot): real {
    (curr.at - prev.at) as real / NS_PER_HOUR
  }

  /** The growth of a counter between two readings; a drop means it restarted from zero. */
  function Growth(prev: real, curr: real): real {
    if curr - prev < 0.0 then curr else curr - prev
  }

  function Delta(prev: Snapshot, curr: Snapshot): Counts {
    Counts(Growth(prev.tokens.input, curr.tokens.input), Growth(prev.tokens.output, curr.tokens.output))
  }

  /** The hourly rate; the rate times the hours is the growth. */
  function ComputeTokenRate(prev: Snapshot, curr: Snapshot): (r: Rate)
    ensures curr.at > prev.at ==>
              Counts(r.inputPerHour * ElapsedHours(prev, curr), r.outputPerHour * ElapsedHours(prev, curr)) ==
                  Delta(prev, curr)
    ensures curr.at <= prev.at ==> r == Rate(0.0, 0.0, 0.0)
    ensures r.totalPerHour == r.inputPerHour + r.outputPerHour
  {
    var elapsed := curr.at - prev.at;
    if elapsed <= 0 then Rate(0.0, 0.0, 0.0)
    else
      var hours := ElapsedHours(prev, curr);
      var input := Growth(prev.tokens.input, curr.tokens.input) / hours;
      var output := Growth(prev.tokens.output, curr.tokens.output) / hours;
      Rate(input, output, input + output)
  }

  /** The tokens that a published rate stands for: rate times hours. */
  function Credit(prev: Snapshot, curr: Snapshot): Counts {
    var rate, hours := ComputeTokenRate(prev, curr), ElapsedHours(prev, curr);
    Counts(rate.inputPerHour * hours, rate.outputPerHour * hours)
  }

  /** What a token costs at an hourly cost and rate; it spends exactly the hourly cost. */
  function ComputeCostPerToken(hourlyCost: real, tokensPerHour: real): (cost: real)
    ensures if tokensPerHour > 0.0 then cost * tokensPerHour == hourlyCost else cost == 0.0
  {
    if tokensPerHour <= 0.0 then 0.0 else hourlyCost / tokensPerHour
  }

  // ----- the snapshot map -----

  type Snapshots = map<string, Snapshot>

  /** A reading is accepted when it is the first, or comes at least ten seconds after the last accepted one. */
  predicate Accepted(snapshots: Snapshots, key: string, curr: Snapshot) {
    key in snapshots ==> curr.at - snapshots[key].at >= MIN_SNAPSHOT_INTERVAL
  }

  function Observed(snapshots: Snapshots, key: string, curr: Snapshot): Snapshots {
    if Accepted(snapshots, key, curr) then snapshots[key := curr] else snapshots
  }

  datatype InferencePod = InferencePod(namespace: string, name: string, model: string, running: bool, ip: string,
                                       node: string, scrape: Option<Counts>, now: int)

  function SnapshotKey(pod: InferencePod): string {
    pod.namespace + "/" + pod.name
  }

  predicate Scraped(pod: InferencePod, hostname: Option<string>) {
    && pod.model != "" && pod.running && pod.ip != ""
    && (hostname.Some? ==> pod.node == hostname.value)
    && pod.scrape.Some?
  }

  function Reading(pod: InferencePod): Snapshot
    requires pod.scrape.Some?
  {
    Snapshot(pod.now, pod.scrape.value)
  }

  /** The snapshots after a pass over some pods. */
  function AfterPods(snapshots: Snapshots, pods: seq<InferencePod>, hostname: Option<string>): Snapshots {
    if pods == [] then snapshots
    else
      AfterPod(AfterPods(snapshots, pods[..|pods| - 1], hostname), pods[|pods| - 1], hostname)
  }

  function AfterPod(snapshots: Snapshots, pod: InferencePod, hostname: Option<string>): Snapshots {
    if Scraped(pod, hostname) then Observed(snapshots, SnapshotKey(pod), Reading(pod)) else snapshots
  }

  /**
    What a pass publishes for a pod: the two snapshots, the hourly tokens between them, and what a token then
    costs.
   */
  datatype Published = Published(key: string, prev: Snapshot, curr: Snapshot, tokensPerHour: real, costPerToken: real)

  function Publish(key: string, prev: Snapshot, curr: Snapshot, hourlyCost: real): Published {
    var rate := ComputeTokenRate(prev, curr).totalPerHour;
    Published(key, prev, curr, rate, ComputeCostPerToken(hourlyCost, rate))
  }

  /** All that a pass publishes: an entry for every accepted reading that is not its pod's first. */
  function PassRates(snapshots: Snapshots, pods: seq<InferencePod>, hostname: Option<string>,
        hourlyCost: real): seq<Published> {
    if pods == [] then []
    else
      var n := |pods| - 1;
      PassRates(snapshots, pods[..n], hostname, hourlyCost)
      + PodRate(AfterPods(snapshots, pods[..n], hostname), pods[n], hostname, hourlyCost)
  }

  function PodRate(snapshots: Snapshots, pod: InferencePod, hostname: Option<string>,
        hourlyCost: real): seq<Published> {
    var key := SnapshotKey(pod);
    if Scraped(pod, hostname) && key in snapshots && Accepted(snapshots, key, Reading(pod))
    then [Publish(key, snapshots[key], Reading(pod), hourlyCost)] else []
  }

  class CostProfileReconciler {
    var tokenSnapshots: Snapshots

    constructor ()
      ensures tokenSnapshots == map[]
    {
      tokenSnapshots := map[];
    }

    /** One pass over the pods of a profile: updates the snapshots and returns the rates and prices it publishes. */
    method ScrapeInferencePods(pods: seq<InferencePod>, hostname: Option<string>, hourlyCost: real)
      returns (rates: seq<Published>)
      modifies this
      ensures tokenSnapshots == AfterPods(old(tokenSnapshots), pods, hostname)
      ensures rates == PassRates(old(tokenSnapshots), pods, hostname, hourlyCost)
    {
      rates := [];
      for i := 0 to |pods|
        invariant tokenSnapshots == AfterPods(old(tokenSnapshots), pods[..i], hostname)
        invariant rates == PassRates(old(tokenSnapshots), pods[..i], hostname, hourlyCost)
      {
        var pod := pods[i];
        assert pods[..i + 1][..i] == pods[..i];
        if pod.model == "" {
          continue;
        }
        if !pod.running || pod.ip == "" {
          continue;
        }
        if hostname.Some? && pod.node != hostname.value {
          continue;
        }
        if pod.scrape.None? {
          continue;
        }
        var snapshotKey := pod.namespace + "/" + pod.name;
        var hasPrev := snapshotKey in tokenSnapshots;
        if hasPrev && pod.now - tokenSnapshots[snapshotKey].at < MIN_SNAPSHOT_INTERVAL {
          continue;
        }
        var curr := Snapshot(pod.now, pod.scrape.value);
        if !hasPrev {
          tokenSnapshots := tokenSnapshots[snapshotKey := curr];
          continue;
        }
        var prev := tokenSnapshots[snapshotKey];
        tokenSnapshots := tokenSnapshots[snapshotKey := curr];
        var rate := ComputeTokenRate(prev, curr);
        var costPerToken := ComputeCostPerToken(hourlyCost, rate.totalPerHour);
        rates := rates + [Published(snapshotKey, prev, curr, rate.totalPerHour, costPerToken)];
      }
      assert pods[..|pods|] == pods;
    }
  }

  // ----- in the fields of a pod -----

  /**
    A pod that a pass reads: labelled with a model, running, with an address, answering, and on the profile's
    node if it names one.
   */
  predicate Readable(pod: InferencePod, hostname: Option<string>) {
    && pod.model != "" && pod.running && pod.ip != "" && pod.scrape.Some?
    && (hostname.None? || pod.node == hostname.value)
  }

  /** Only readable pods are published, under their namespace and name, with the counters they answered. */
  lemma {:induction false} PublishesReadablePods(snapshots: Snapshots, pods: seq<InferencePod>,
      hostname: Option<string>, hourlyCost: real, p: Published)
    requires p in PassRates(snapshots, pods, hostname, hourlyCost)
    ensures exists pod :: pod in pods && Readable(pod, hostname) && p.key == pod.namespace + "/" + pod.name
                          && p.curr == Snapshot(pod.now, pod.scrape.value)
  {
    var n := |pods| - 1;
    assert pods == pods[..n] + [pods[n]];
    if p in PassRates(snapshots, pods[..n], hostname, hourlyCost) {
      PublishesReadablePods(snapshots, pods[..n], hostname, hourlyCost, p);
    }
  }

  predicate SameAt(after: Snapshots, before: Snapshots, key: string) {
    (key in after <==> key in before) && (key in after ==> after[key] == before[key])
  }

  /** Only readable pods move a snapshot. */
  lemma {:induction false} FilesReadablePods(snapshots: Snapshots, pods: seq<InferencePod>,
      hostname: Option<string>, key: string)
    ensures var after := AfterPods(snapshots, pods, hostname);
            || SameAt(after, snapshots, key)
            || exists pod :: pod in pods && Readable(pod, hostname) && key == pod.namespace + "/" + pod.name
                             && key in after && after[key] == Snapshot(pod.now, pod.scrape.value)
  {
    if pods != [] {
      var n := |pods| - 1;
      assert pods == pods[..n] + [pods[n]];
      FilesReadablePods(snapshots, pods[..n], hostname, key);
    }
  }

  /** Without a pod of that name the pass leaves a snapshot alone and publishes nothing for it. */
  lemma {:induction false} OthersLeaveTheKey(snapshots: Snapshots, pods: seq<InferencePod>, hostname: Option<string>,
      hourlyCost: real, key: string)
    requires forall pod :: pod in pods ==> SnapshotKey(pod) != key
    ensures SameAt(AfterPods(snapshots, pods, hostname), snapshots, key)
    ensures forall p :: p in PassRates(snapshots, pods, hostname, hourlyCost) ==> p.key != key
  {
    if pods != [] {
      var n := |pods| - 1;
      assert pods[n] in pods && pods == pods[..n] + [pods[n]];
      OthersLeaveTheKey(snapshots, pods[..n], hostname, hourlyCost, key);
    }
  }

  /** A pod's reading is filed when it is the first, or at least ten seconds after the last one filed. */
  predicate Files(snapshots: Snapshots, pod: InferencePod) {
    var key := SnapshotKey(pod);
    key !in snapshots || pod.now - snapshots[key].at >= 10 * 1_000_000_000
  }

  /** No other pod of the pass goes by the same name. */
  predicate OneOfItsName(pods: seq<InferencePod>, i: nat)
    requires i < |pods|
  {
    forall j :: 0 <= j < |pods| && j != i ==> SnapshotKey(pods[j]) != SnapshotKey(pods[i])
  }

  /** What the reading of a pod makes known: nothing if it comes first or too soon. */
  function NewRates(snapshots: Snapshots, pod: InferencePod, hourlyCost: real): seq<Published>
    requires pod.scrape.Some?
  {
    var key := SnapshotKey(pod);
    if key in snapshots && Files(snapshots, pod)
    then [Publish(key, snapshots[key], Snapshot(pod.now, pod.scrape.value), hourlyCost)] else []
  }

  /** What a pass publishes under one name. */
  function PublishedOf(rates: seq<Published>, key: string): seq<Published> {
    if rates == [] then []
    else PublishedOf(rates[..|rates| - 1], key) + if rates[|rates| - 1].key == key then [rates[|rates| - 1]] else []
  }

  /**
    A pass files the reading of a readable pod, unless it comes too soon; and if one had been filed before, it
    publishes, once, the rate since then and the price at which that rate spends the hourly cost.
   */
  lemma ReadablePodIsFiled(snapshots: Snapshots, pods: seq<InferencePod>, hostname: Option<string>, hourlyCost: real,
                           i: nat)
    requires i < |pods| && Readable(pods[i], hostname) && OneOfItsName(pods, i)
    ensures var after, key := AfterPods(snapshots, pods, hostname), SnapshotKey(pods[i]);
            && key in after
            && after[key] == if Files(snapshots, pods[i]) then Snapshot(pods[i].now, pods[i].scrape.value)
                             else snapshots[key]
    ensures PublishedOf(PassRates(snapshots, pods, hostname, hourlyCost), SnapshotKey(pods[i]))
         == NewRates(snapshots, pods[i], hourlyCost)
  {
    var a, p, b, key := pods[..i], pods[i], pods[i + 1..], SnapshotKey(pods[i]);
    assert pods == a + [p] + b;
    assert forall pod :: pod in a || pod in b ==> SnapshotKey(pod) != key;
    var before := AfterPods(snapshots, a, hostname);
    var until := AfterPods(snapshots, a + [p], hostname);
    PassAppend(snapshots, a + [p], b, hostname, hourlyCost);
    PassExtend(snapshots, a, p, hostname, hourlyCost);
    OthersLeaveTheKey(snapshots, a, hostname, hourlyCost, key);
    OthersLeaveTheKey(until, b, hostname, hourlyCost, key);
    OwnPod(snapshots, before, p, hostname, hourlyCost);
    OnlyInTheMiddle(PassRates(snapshots, a, hostname, hourlyCost), PodRate(before, p, hostname, hourlyCost),
                    PassRates(until, b, hostname, hourlyCost), key);
  }

  lemma PassExtend(snapshots: Snapshots, pods: seq<InferencePod>, pod: InferencePod, hostname: Option<string>,
                   hourlyCost: real)
    ensures AfterPods(snapshots, pods + [pod], hostname)
         == AfterPod(AfterPods(snapshots, pods, hostname), pod, hostname)
    ensures PassRates(snapshots, pods + [pod], hostname, hourlyCost)
         == PassRates(snapshots, pods, hostname, hourlyCost)
            + PodRate(AfterPods(snapshots, pods, hostname), pod, hostname, hourlyCost)
  {
    assert (pods + [pod])[..|pods|] == pods;
  }

  /** A pass over two lists is two passes. */
  lemma {:induction false} PassAppend(snapshots: Snapshots, a: seq<InferencePod>, b: seq<InferencePod>,
                                      hostname: Option<string>, hourlyCost: real)
    ensures AfterPods(snapshots, a + b, hostname) == AfterPods(AfterPods(snapshots, a, hostname), b, hostname)
    ensures PassRates(snapshots, a + b, hostname, hourlyCost)
         == PassRates(snapshots, a, hostname, hourlyCost)
            + PassRates(AfterPods(snapshots, a, hostname), b, hostname, hourlyCost)
  {
    if b == [] {
      assert a + b == a;
    } else {
      var c, pod := b[..|b| - 1], b[|b| - 1];
      assert b == c + [pod];
      PassAppend(snapshots, a, c, hostname, hourlyCost);
      assert a + b == a + c + [pod];
      PassExtend(snapshots, a + c, pod, hostname, hourlyCost);
      PassExtend(AfterPods(snapshots, a, hostname), c, pod, hostname, hourlyCost);
      SameSum(PassRates(snapshots, a, hostname, hourlyCost),
              PassRates(AfterPods(snapshots, a, hostname), c, hostname, hourlyCost),
              PodRate(AfterPods(snapshots, a + c, hostname), pod, hostname, hourlyCost));
    }
  }

  lemma SameSum<T>(xs: seq<T>, ys: seq<T>, zs: seq<T>)
    ensures xs + ys + zs == xs + (ys + zs)
  {
  }

  lemma OnlyInTheMiddle(xs: seq<Published>, ys: seq<Published>, zs: seq<Published>, key: string)
    requires forall p :: p in xs || p in zs ==> p.key != key
    ensures PublishedOf(xs + ys + zs, key) == PublishedOf(ys, key)
  {
    PublishedAppend(xs + ys, zs, key);
    PublishedAppend(xs, ys, key);
    NonePublished(xs, key);
    NonePublished(zs, key);
  }

  lemma {:induction false} PublishedAppend(xs: seq<Published>, ys: seq<Published>, key: string)
    ensures PublishedOf(xs + ys, key) == PublishedOf(xs, key) + PublishedOf(ys, key)
  {
    if ys == [] {
      assert xs + ys == xs;
    } else {
      PublishedAppend(xs, ys[..|ys| - 1], key);
      assert (xs + ys)[..|xs + ys| - 1] == xs + ys[..|ys| - 1];
    }
  }

  lemma {:induction false} NonePublished(rates: seq<Published>, key: string)
    requires forall p :: p in rates ==> p.key != key
    ensures PublishedOf(rates, key) == []
  {
    if rates != [] {
      assert rates[|rates| - 1] in rates;
      NonePublished(rates[..|rates| - 1], key);
    }
  }

  lemma OwnPod(first: Snapshots, snapshots: Snapshots, pod: InferencePod, hostname: Option<string>, hourlyCost: real)
    requires Readable(pod, hostname) && SameAt(snapshots, first, SnapshotKey(pod))
    ensures var after, key := AfterPod(snapshots, pod, hostname), SnapshotKey(pod);
            && key in after
            && after[key] == if Files(first, pod) then Snapshot(pod.now, pod.scrape.value) else first[key]
    ensures var key := SnapshotKey(pod);
            PublishedOf(PodRate(snapshots, pod, hostname, hourlyCost), key)
            == NewRates(first, pod, hourlyCost)
  {
    var rates := PodRate(snapshots, pod, hostname, hourlyCost);
    if rates != [] {
      assert |rates| == 1 && rates[..0] == [];
      assert PublishedOf(rates[..0], SnapshotKey(pod)) == [];
    }
  }

  /** What is published of two snapshots: an hourly rate that accounts for all growth, and its price. */
  lemma PublishedRateAndPrice(key: string, prev: Snapshot, curr: Snapshot, hourlyCost: real)
    requires curr.at > prev.at
    ensures var p := Publish(key, prev, curr, hourlyCost);
            && p.key == key && p.prev == prev && p.curr == curr
            && p.tokensPerHour * ((curr.at - prev.at) as real / 3_600_000_000_000.0)
               == Growth(prev.tokens.input, curr.tokens.input) + Growth(prev.tokens.output, curr.tokens.output)
            && (if p.tokensPerHour > 0.0 then p.costPerToken * p.tokensPerHour == hourlyCost else p.costPerToken == 0.0)
  {
    RateTimesHours(ComputeTokenRate(prev, curr), ElapsedHours(prev, curr),
                   Publish(key, prev, curr, hourlyCost).tokensPerHour, Credit(prev, curr));
  }

  // ----- runs -----

  /** What happens to a pod: it serves tokens, its counters drop to zero, or it is scraped. */
  datatype Event = Produce(key: string, tokens: Counts) | Restart(key: string) | Scrape(key: string, now: int)

  /**
    The books on one pod: its counters, all it ever produced, the last accepted snapshot, whether the pod
    restarted since, what had been produced at the first and at the last accepted snapshot, the tokens
    that the rates in between stand for, and whether every one of them caught all that was served.
   */
  datatype Watch = Watch(counter: Counts, produced: Counts, last: Option<Snapshot>, restarted: bool,
                         producedAtFirst: Counts, producedAtLast: Counts, credited: Counts, lossless: bool)

  const START := Watch(ZERO, ZERO, None, false, ZERO, ZERO, ZERO, true)

  /**
    When the growth of a counter is all that was served since the last accepted reading: no restart, or a
    restart with nothing served before it that the reading gives away, by a drop or by having been zero.
   */
  predicate CatchesAll(taken: real, counter: real, sinceLast: real, restarted: bool) {
    !restarted || (counter == sinceLast && (counter < taken || taken == 0.0))
  }

  predicate CatchesBoth(taken: Counts, counter: Counts, sinceLast: Counts, restarted: bool) {
    && CatchesAll(taken.input, counter.input, sinceLast.input, restarted)
    && CatchesAll(taken.output, counter.output, sinceLast.output, restarted)
  }

  predicate Genuine(es: seq<Event>) {
    forall i :: 0 <= i < |es| && es[i].Produce? ==> ZERO.AtMost(es[i].tokens)
  }

  function Watching(w: Watch, e: Event): Watch {
    match e
    case Produce(_, tokens) => w.(counter := w.counter.Plus(tokens), produced := w.produced.Plus(tokens))
    case Restart(_) => w.(counter := ZERO, restarted := true)
    case Scrape(_, now) =>
      var curr := Snapshot(now, w.counter);
      if w.last.None? then
        w.(last := Some(curr), restarted := false, producedAtFirst := w.produced, producedAtLast := w.produced)
      else if now - w.last.value.at < MIN_SNAPSHOT_INTERVAL then w
      else
        var sinceLast := w.produced.Minus(w.producedAtLast);
        w.(last := Some(curr), restarted := false, producedAtLast := w.produced,
           credited := w.credited.Plus(Credit(w.last.value, curr)),
           lossless := w.lossless && CatchesBoth(w.last.value.tokens, w.counter, sinceLast, w.restarted))
  }

  function Watched(es: seq<Event>, key: string): Watch {
    if es == [] then START
    else
      var w, e := Watched(es[..|es| - 1], key), es[|es| - 1];
      if e.key == key then Watching(w, e) else w
  }

  /** The controller's snapshot map over a run, every scrape reading the pod's counters of that moment. */
  function Kept(es: seq<Event>): Snapshots {
    if es == [] then map[]
    else
      var n, e := |es| - 1, es[|es| - 1];
      if e.Scrape? then Observed(Kept(es[..n]), e.key, Snapshot(e.now, Watched(es[..n], e.key).counter))
          else Kept(es[..n])
  }

  /** The map holds each pod's own last accepted snapshot, untouched by what happens to other pods. */
  lemma {:induction false} MapKeepsEachPod(es: seq<Event>, key: string)
    ensures Watched(es, key).last == if key in Kept(es) then Some(Kept(es)[key]) else None
  {
    if es != [] {
      MapKeepsEachPod(es[..|es| - 1], key);
    }
  }

  /**
    One counter since the last accepted snapshot: it has grown by what was served, or it restarted and holds
    at most that.
   */
  predicate CounterSound(counter: real, taken: real, sinceLast: real, restarted: bool) {
    && 0.0 <= counter && 0.0 <= taken && 0.0 <= sinceLast
    && if restarted then counter <= sinceLast else counter == taken + sinceLast
  }

  /** The growth of a counter never exceeds what was served, and is all of it exactly under the condition. */
  lemma GrowthIsAllIff(taken: real, counter: real, sinceLast: real, restarted: bool)
    requires CounterSound(counter, taken, sinceLast, restarted)
    ensures 0.0 <= Growth(taken, counter) <= sinceLast
    ensures Growth(taken, counter) == sinceLast <==> CatchesAll(taken, counter, sinceLast, restarted)
  {
  }

  /**
    What a restart hides: the tokens served before it, and, once the counter has outgrown it, the old reading
    again.
   */
  lemma HiddenByRestart(taken: real, counter: real, sinceLast: real)
    requires CounterSound(counter, taken, sinceLast, true)
    ensures sinceLast - Growth(taken, counter) == (sinceLast - counter) + (if counter < taken then 0.0 else taken)
  {
  }

  predicate Sound(w: Watch) {
    && ZERO.AtMost(w.counter)
    && (w.last.None? ==> w.credited == ZERO && w.lossless)
    && (w.last.Some? ==> CountersSound(w) && BooksSound(w))
  }

  predicate CountersSound(w: Watch)
    requires w.last.Some?
  {
    var taken, sinceLast := w.last.value.tokens, w.produced.Minus(w.producedAtLast);
    && CounterSound(w.counter.input, taken.input, sinceLast.input, w.restarted)
    && CounterSound(w.counter.output, taken.output, sinceLast.output, w.restarted)
  }

  predicate BooksSound(w: Watch) {
    && w.credited.AtMost(w.producedAtLast.Minus(w.producedAtFirst))
    && (w.credited == w.producedAtLast.Minus(w.producedAtFirst) <==> w.lossless)
  }

  lemma WatchingIsSound(w: Watch, e: Event)
    requires Sound(w) && (e.Produce? ==> ZERO.AtMost(e.tokens))
    ensures Sound(Watching(w, e))
  {
    if e.Scrape? && w.last.Some? {
      var taken, sinceLast := w.last.value.tokens, w.produced.Minus(w.producedAtLast);
      GrowthIsAllIff(taken.input, w.counter.input, sinceLast.input, w.restarted);
      GrowthIsAllIff(taken.output, w.counter.output, sinceLast.output, w.restarted);
    }
  }

  lemma {:induction false} RunIsSound(es: seq<Event>, key: string)
    requires Genuine(es)
    ensures Sound(Watched(es, key))
  {
    if es != [] {
      var n := |es| - 1;
      RunIsSound(es[..n], key);
      WatchingIsSound(Watched(es[..n], key), es[n]);
    }
  }

  /**
    Over any run, with any clock and however many scrapes are dropped, the credited tokens are at most those
    served between the first and the last accepted snapshot, and they are all of them exactly when every
    accepted reading caught all that its counters had served.
   */
  lemma NeverOvercounts(es: seq<Event>, key: string)
    requires Genuine(es) && Watched(es, key).last.Some?
    ensures Watched(es, key).credited.AtMost(Watched(es, key).producedAtLast.Minus(Watched(es, key).producedAtFirst))
    ensures Watched(es, key).credited == Watched(es, key).producedAtLast.Minus(Watched(es, key).producedAtFirst)
       <==> Watched(es, key).lossless
  {
    RunIsSound(es, key);
  }

  predicate NeverRestarts(es: seq<Event>, key: string) {
    es == [] || (NeverRestarts(es[..|es| - 1], key) && es[|es| - 1] != Restart(key))
  }

  /** A pod that never restarts loses nothing. */
  lemma {:induction false} NoRestartNoLoss(es: seq<Event>, key: string)
    requires NeverRestarts(es, key)
    ensures !Watched(es, key).restarted && Watched(es, key).lossless
  {
    if es != [] {
      NoRestartNoLoss(es[..|es| - 1], key);
    }
  }

  lemma WatchedNext(es: seq<Event>, e: Event, key: string)
    ensures Watched(es + [e], key) == if e.key == key then Watching(Watched(es, key), e) else Watched(es, key)
  {
  }

  lemma KeptNext(es: seq<Event>, key: string, now: int)
    ensures Kept(es + [Scrape(key, now)]) == Observed(Kept(es), key, Snapshot(now, Watched(es, key).counter))
  {
  }

  /**
    A restart between two accepted readings, whatever was served before the first, between it and the restart,
    and after the restart: the later reading credits its growth over the earlier one.
   */
  lemma AroundARestart(key: string, first: Counts, before: Counts, after: Counts, now: int)
    ensures var es := [Produce(key, first)] + [Scrape(key, now)] + [Produce(key, before)] + [Restart(key)]
                      + [Produce(key, after)] + [Scrape(key, now + MIN_SNAPSHOT_INTERVAL)];
            && Watched(es, key).credited == Counts(Growth(first.input, after.input), Growth(first.output, after.output))
            && Watched(es, key).producedAtLast.Minus(Watched(es, key).producedAtFirst) == before.Plus(after)
  {
    var e1 := [Produce(key, first)];
    var e2 := e1 + [Scrape(key, now)];
    var e3 := e2 + [Produce(key, before)];
    var e4 := e3 + [Restart(key)];
    var e5 := e4 + [Produce(key, after)];
    assert [] + e1 == e1;
    WatchedNext([], Produce(key, first), key);
    WatchedNext(e1, Scrape(key, now), key);
    WatchedNext(e2, Produce(key, before), key);
    WatchedNext(e3, Restart(key), key);
    WatchedNext(e4, Produce(key, after), key);
    WatchedNext(e5, Scrape(key, now + MIN_SNAPSHOT_INTERVAL), key);
  }

  // ----- a pass is part of a run -----

  /** Events without a scrape. */
  predicate Unscraped(es: seq<Event>) {
    es == [] || (Unscraped(es[..|es| - 1]) && !es[|es| - 1].Scrape?)
  }

  lemma {:induction false} UnscrapedKeeps(es: seq<Event>, more: seq<Event>, key: string)
    requires Unscraped(more)
    ensures Kept(es + more) == Kept(es) && Watched(es + more, key).credited == Watched(es, key).credited
  {
    if more == [] {
      assert es + more == es;
    } else {
      var n := |more| - 1;
      UnscrapedKeeps(es, more[..n], key);
      assert (es + more)[..|es + more| - 1] == es + more[..n];
    }
  }

  /** The events of a pass: before each pod is reached anything may be served or restart, then it is scraped. */
  function PassRun(pods: seq<InferencePod>, between: seq<seq<Event>>, hostname: Option<string>): seq<Event>
    requires |between| == |pods|
  {
    if pods == [] then []
    else
      var n := |pods| - 1;
      PassRun(pods[..n], between[..n], hostname) + between[n] + ScrapeOf(pods[n], hostname)
  }

  function ScrapeOf(pod: InferencePod, hostname: Option<string>): seq<Event> {
    if Scraped(pod, hostname) then [Scrape(SnapshotKey(pod), pod.now)] else []
  }

  /** The run when a pass reaches its last pod. */
  function Midway(es: seq<Event>, pods: seq<InferencePod>, between: seq<seq<Event>>,
        hostname: Option<string>): seq<Event>
    requires |between| == |pods| && pods != []
  {
    es + PassRun(pods[..|pods| - 1], between[..|pods| - 1], hostname) + between[|pods| - 1]
  }

  lemma Regrouped<T>(a: seq<T>, b: seq<T>, c: seq<T>, d: seq<T>)
    ensures a + (b + c + d) == a + b + c + d
  {
  }

  lemma PassEnds(es: seq<Event>, pods: seq<InferencePod>, between: seq<seq<Event>>, hostname: Option<string>)
    requires |between| == |pods| && pods != []
    ensures es + PassRun(pods, between, hostname)
         == Midway(es, pods, between, hostname) + ScrapeOf(pods[|pods| - 1], hostname)
  {
    var n := |pods| - 1;
    var run, last := PassRun(pods[..n], between[..n], hostname), ScrapeOf(pods[n], hostname);
    Regrouped(es, run, between[n], last);
  }

  /** Every scrape of the pass reads its pod's counters of that moment. */
  predicate PassReads(es: seq<Event>, pods: seq<InferencePod>, between: seq<seq<Event>>, hostname: Option<string>)
    requires |between| == |pods|
  {
    pods == [] ||
    var n := |pods| - 1;
    && PassReads(es, pods[..n], between[..n], hostname) && Unscraped(between[n])
    && (Scraped(pods[n], hostname) ==>
          pods[n].scrape.value == Watched(Midway(es, pods, between, hostname), SnapshotKey(pods[n])).counter)
  }

  /** The tokens that the published rates of one pod stand for. */
  function PublishedTokens(rates: seq<Published>, key: string): real {
    if rates == [] then 0.0
    else
      var p := rates[|rates| - 1];
      PublishedTokens(rates[..|rates| - 1], key)
      + if p.key == key then p.tokensPerHour * ElapsedHours(p.prev, p.curr) else 0.0
  }

  lemma PublishedRateIsCredit(key: string, prev: Snapshot, curr: Snapshot, hourlyCost: real)
    ensures Publish(key, prev, curr, hourlyCost).tokensPerHour * ElapsedHours(prev, curr) == Credit(prev, curr).Total()
  {
    RateTimesHours(ComputeTokenRate(prev, curr), ElapsedHours(prev, curr),
                   Publish(key, prev, curr, hourlyCost).tokensPerHour, Credit(prev, curr));
  }

  lemma RateTimesHours(rate: Rate, hours: real, total: real, credit: Counts)
    requires credit == Counts(rate.inputPerHour * hours, rate.outputPerHour * hours)
    requires total == rate.totalPerHour == rate.inputPerHour + rate.outputPerHour
    ensures total * hours == credit.Total()
  {
    assert (rate.inputPerHour + rate.outputPerHour) * hours == rate.inputPerHour * hours + rate.outputPerHour * hours;
  }

  lemma ScrapeIsAfterPod(es: seq<Event>, pod: InferencePod, hostname: Option<string>)
    requires Scraped(pod, hostname) ==> pod.scrape.value == Watched(es, SnapshotKey(pod)).counter
    ensures Kept(es + ScrapeOf(pod, hostname)) == AfterPod(Kept(es), pod, hostname)
  {
    if Scraped(pod, hostname) {
      KeptNext(es, SnapshotKey(pod), pod.now);
    } else {
      assert es + [] == es;
    }
  }

  lemma ScrapeIsPodRate(es: seq<Event>, pod: InferencePod, hostname: Option<string>, hourlyCost: real, key: string)
    requires Scraped(pod, hostname) ==> pod.scrape.value == Watched(es, SnapshotKey(pod)).counter
    ensures Watched(es + ScrapeOf(pod, hostname), key).credited.Total()
         == Watched(es, key).credited.Total() + PublishedTokens(PodRate(Kept(es), pod, hostname, hourlyCost), key)
  {
    MapKeepsEachPod(es, key);
    if Scraped(pod, hostname) {
      WatchedNext(es, Scrape(SnapshotKey(pod), pod.now), key);
      ScrapeCredits(Watched(es, key), Kept(es), pod, hostname, hourlyCost, key);
    } else {
      assert es + [] == es;
    }
  }

  lemma ScrapeCredits(w: Watch, snapshots: Snapshots, pod: InferencePod, hostname: Option<string>, hourlyCost: real,
        key: string)
    requires w.last == if key in snapshots then Some(snapshots[key]) else None
    requires Scraped(pod, hostname) && (SnapshotKey(pod) == key ==> pod.scrape.value == w.counter)
    ensures (if SnapshotKey(pod) == key then Watching(w, Scrape(key, pod.now)) else w).credited.Total()
         == w.credited.Total() + PublishedTokens(PodRate(snapshots, pod, hostname, hourlyCost), key)
  {
    OnePublished(PodRate(snapshots, pod, hostname, hourlyCost), key);
    if SnapshotKey(pod) == key && key in snapshots {
      PublishedRateIsCredit(key, snapshots[key], Reading(pod), hourlyCost);
    }
  }

  lemma OnePublished(rates: seq<Published>, key: string)
    requires |rates| <= 1
    ensures PublishedTokens(rates, key)
         == if rates != [] && rates[0].key == key
             then rates[0].tokensPerHour * ElapsedHours(rates[0].prev, rates[0].curr) else 0.0
  {
    if rates != [] {
      assert rates[..0] == [];
    }
  }

  lemma OneRateMore(rates: seq<Published>, more: seq<Published>, key: string)
    requires |more| <= 1
    ensures PublishedTokens(rates + more, key) == PublishedTokens(rates, key) + PublishedTokens(more, key)
  {
    OnePublished(more, key);
    if more == [] {
      assert rates + more == rates;
    } else {
      assert (rates + more)[..|rates|] == rates;
    }
  }

  /** A pass of the controller is a stretch of the run: it leaves the map that the run leaves. */
  lemma {:induction false} PassIsScrapes(es: seq<Event>, pods: seq<InferencePod>, between: seq<seq<Event>>,
        hostname: Option<string>)
    requires |between| == |pods| && PassReads(es, pods, between, hostname)
    ensures Kept(es + PassRun(pods, between, hostname)) == AfterPods(Kept(es), pods, hostname)
  {
    if pods == [] {
      assert es + PassRun(pods, between, hostname) == es;
    } else {
      var n := |pods| - 1;
      PassIsScrapes(es, pods[..n], between[..n], hostname);
      UnscrapedKeeps(es + PassRun(pods[..n], between[..n], hostname), between[n], "");
      ScrapeIsAfterPod(Midway(es, pods, between, hostname), pods[n], hostname);
      PassEnds(es, pods, between, hostname);
    }
  }

  /** And the rates it publishes, times their intervals, are what the books credit each pod with over the pass. */
  lemma {:induction false} PublishedRatesAreCredited(es: seq<Event>, pods: seq<InferencePod>, between: seq<seq<Event>>,
      hostname: Option<string>, hourlyCost: real, key: string)
    requires |between| == |pods| && PassReads(es, pods, between, hostname)
    ensures Watched(es + PassRun(pods, between, hostname), key).credited.Total()
         == Watched(es, key).credited.Total() + PublishedTokens(PassRates(Kept(es), pods, hostname, hourlyCost), key)
  {
    if pods == [] {
      assert es + PassRun(pods, between, hostname) == es;
    } else {
      var n := |pods| - 1;
      PublishedRatesAreCredited(es, pods[..n], between[..n], hostname, hourlyCost, key);
      PassIsScrapes(es, pods[..n], between[..n], hostname);
      UnscrapedKeeps(es + PassRun(pods[..n], between[..n], hostname), between[n], key);
      ScrapeIsPodRate(Midway(es, pods, between, hostname), pods[n], hostname, hourlyCost, key);
      OneRateMore(PassRates(Kept(es), pods[..n], hostname, hourlyCost),
                  PodRate(AfterPods(Kept(es), pods[..n], hostname), pods[n], hostname, hourlyCost), key);
      PassEnds(es, pods, between, hostname);
    }
  }
}
