/**
  Cost attribution in a usage report: token counters scraped from pods are summed by model and by
  namespace, and the cost of the period is shared out in proportion.  Go iterates maps in any order;
  the loops here take keys in an order they do not control, and the results hold whatever it is.
 */
module Attribution {
  import opened Common
  import Order

  datatype Tokens = Tokens(input: int, output: int) {
    function Plus(that: Tokens): Tokens {
      Tokens(input + that.input, output + that.output)
    }

    function Total(): int {
      input + output
    }
  }

  const NO_TOKENS := Tokens(0, 0)

  datatype ModelKey = ModelKey(model: string, namespace: string)

  datatype Counters = Counters(promptTotal: real, predictedTotal: real)

  /** An inference pod: its model label, and what a scrape of it returns, if it succeeds. */
  datatype Pod = Pod(model: string, namespace: string, running: bool, ip: string, scrape: Option<Counters>) {
    function Key(): ModelKey {
      ModelKey(model, namespace)
    }
  }

  /** int64 of a float: truncation toward zero. */
  function Truncate(x: real): int {
    if x < 0.0 then -((-x).Floor) else x.Floor
  }

  /** The namespaces that a report is restricted to; none means no restriction. */
  function FilterOf(namespaces: seq<string>): set<string> {
    set ns | ns in namespaces
  }

  predicate Scrapeable(pod: Pod, filter: set<string>) {
    pod.model != "" && pod.running && pod.ip != "" && (filter == {} || pod.namespace in filter)
  }

  predicate Counted(pod: Pod, filter: set<string>) {
    Scrapeable(pod, filter) && pod.scrape.Some?
  }

  function TokensOf(pod: Pod): Tokens
    requires pod.scrape.Some?
  {
    Tokens(Truncate(pod.scrape.value.promptTotal), Truncate(pod.scrape.value.predictedTotal))
  }

  /** Everything the counted pods of one model and namespace report. */
  function PodTokens(pods: seq<Pod>, filter: set<string>, key: ModelKey): Tokens {
    if pods == [] then NO_TOKENS
    else
      var pod, rest := pods[|pods| - 1], PodTokens(pods[..|pods| - 1], filter, key);
      if Counted(pod, filter) && pod.Key() == key then rest.Plus(TokensOf(pod)) else rest
  }

  // ----- sums over a map, in no particular order -----

  type Usage = map<ModelKey, Tokens>

  ghost function Pick(keys: set<ModelKey>): (key: ModelKey)
    requires keys != {}
    ensures key in keys
  {
    var key :| key in keys; key
  }

  ghost function Sum(usage: Usage, keys: set<ModelKey>): Tokens
    requires keys <= usage.Keys
  {
    if keys == {} then NO_TOKENS else usage[Pick(keys)].Plus(Sum(usage, keys - {Pick(keys)}))
  }

  ghost function SumTotal(usage: Usage, keys: set<ModelKey>): int
    requires keys <= usage.Keys
  {
    Sum(usage, keys).input + Sum(usage, keys).output
  }

  /** Any key may be taken first. */
  lemma {:induction false} SumTakes(usage: Usage, keys: set<ModelKey>, key: ModelKey)
    requires keys <= usage.Keys && key in keys
    ensures Sum(usage, keys) == usage[key].Plus(Sum(usage, keys - {key}))
    decreases |keys|
  {
    var first := Pick(keys);
    if first != key {
      SumTakes(usage, keys - {first}, key);
      SumTakes(usage, keys - {key}, first);
      var rest := keys - {first} - {key};
      assert rest == keys - {key} - {first};
      assert Sum(usage, keys - {first}) == usage[key].Plus(Sum(usage, rest));
      assert Sum(usage, keys - {key}) == usage[first].Plus(Sum(usage, rest));
    }
  }

  lemma {:induction false} SumUnchanged(usage: Usage, changed: Usage, keys: set<ModelKey>)
    requires keys <= usage.Keys && keys <= changed.Keys
    requires forall key :: key in keys ==> usage[key] == changed[key]
    ensures Sum(usage, keys) == Sum(changed, keys)
    decreases |keys|
  {
    if keys != {} {
      var key :| key in keys;
      SumTakes(usage, keys, key);
      SumTakes(changed, keys, key);
      SumUnchanged(usage, changed, keys - {key});
    }
  }

  function KeysIn(keys: set<ModelKey>, namespace: string): set<ModelKey> {
    set key | key in keys && key.namespace == namespace
  }

  /** The namespace totals are the sums of the model totals of each namespace. */
  ghost predicate Agree(usage: Usage, byNamespace: map<string, Tokens>) {
    && (forall key :: key in usage ==> key.namespace in byNamespace)
    && (forall ns :: ns in byNamespace ==>
          KeysIn(usage.Keys, ns) != {} && byNamespace[ns] == Sum(usage, KeysIn(usage.Keys, ns)))
  }

  function Add(usage: Usage, key: ModelKey, tokens: Tokens): Usage {
    usage[key := (if key in usage then usage[key] else NO_TOKENS).Plus(tokens)]
  }

  function AddTo(byNamespace: map<string, Tokens>, ns: string, tokens: Tokens): map<string, Tokens> {
    byNamespace[ns := (if ns in byNamespace then byNamespace[ns] else NO_TOKENS).Plus(tokens)]
  }

  lemma AddSums(usage: Usage, key: ModelKey, tokens: Tokens, ns: string)
    ensures Sum(Add(usage, key, tokens), KeysIn(Add(usage, key, tokens).Keys, ns))
         == Sum(usage, KeysIn(usage.Keys, ns)).Plus(if key.namespace == ns then tokens else NO_TOKENS)
    ensures KeysIn(Add(usage, key, tokens).Keys, ns)
         == KeysIn(usage.Keys, ns) + if key.namespace == ns then {key} else {}
  {
    var more := Add(usage, key, tokens);
    var before, after := KeysIn(usage.Keys, ns), KeysIn(more.Keys, ns);
    if key.namespace == ns {
      SumTakes(more, after, key);
      if key in usage {
        SumTakes(usage, before, key);
        assert after == before;
      } else {
        assert after - {key} == before;
        assert before - {key} == before;
      }
      SumUnchanged(usage, more, before - {key});
    } else {
      assert after == before;
      SumUnchanged(usage, more, before);
    }
  }

  lemma AddAgrees(usage: Usage, byNamespace: map<string, Tokens>, key: ModelKey, tokens: Tokens)
    requires Agree(usage, byNamespace)
    ensures Agree(Add(usage, key, tokens), AddTo(byNamespace, key.namespace, tokens))
  {
    var more, moreByNs := Add(usage, key, tokens), AddTo(byNamespace, key.namespace, tokens);
    forall ns | ns in moreByNs
      ensures KeysIn(more.Keys, ns) != {} && moreByNs[ns] == Sum(more, KeysIn(more.Keys, ns))
    {
      AddSums(usage, key, tokens, ns);
      SumIn(usage, byNamespace, ns);
    }
  }

  lemma SumIn(usage: Usage, byNamespace: map<string, Tokens>, ns: string)
    requires Agree(usage, byNamespace)
    ensures Sum(usage, KeysIn(usage.Keys, ns)) == if ns in byNamespace then byNamespace[ns] else NO_TOKENS
    ensures ns in byNamespace <==> KeysIn(usage.Keys, ns) != {}
  {
  }

  predicate HasCounted(pods: seq<Pod>, filter: set<string>, key: ModelKey) {
    pods != [] &&
    var pod := pods[|pods| - 1];
    (Counted(pod, filter) && pod.Key() == key) || HasCounted(pods[..|pods| - 1], filter, key)
  }

  /** The map has exactly the keys of the counted pods, each with what those pods report. */
  ghost predicate Tallies(usage: Usage, pods: seq<Pod>, filter: set<string>) {
    forall key :: TalliesKey(usage, pods, filter, key)
  }

  predicate TalliesKey(usage: Usage, pods: seq<Pod>, filter: set<string>, key: ModelKey) {
    && (key in usage <==> HasCounted(pods, filter, key))
    && PodTokens(pods, filter, key) == if key in usage then usage[key] else NO_TOKENS
  }

  lemma TallyOne(usage: Usage, pods: seq<Pod>, filter: set<string>)
    requires pods != [] && Tallies(usage, pods[..|pods| - 1], filter)
    ensures var pod := pods[|pods| - 1];
            Tallies(if Counted(pod, filter) then Add(usage, pod.Key(), TokensOf(pod)) else usage, pods, filter)
  {
    var n, pod := |pods| - 1, pods[|pods| - 1];
    var more := if Counted(pod, filter) then Add(usage, pod.Key(), TokensOf(pod)) else usage;
    forall key ensures TalliesKey(more, pods, filter, key) {
      assert TalliesKey(usage, pods[..n], filter, key);
    }
  }

  /** Sums the counters of every scrapeable pod that answers, by model and by namespace. */
  method ScrapeTokens(pods: seq<Pod>, namespaces: seq<string>)
    returns (modelTokens: Usage, nsTokens: map<string, Tokens>)
    ensures Tallies(modelTokens, pods, FilterOf(namespaces))
    ensures Agree(modelTokens, nsTokens)
  {
    var filter := FilterOf(namespaces);
    modelTokens, nsTokens := map[], map[];
    for n := 0 to |pods|
      invariant Tallies(modelTokens, pods[..n], filter)
      invariant Agree(modelTokens, nsTokens)
    {
      var pod := pods[n];
      assert pods[..n + 1][..n] == pods[..n];
      TallyOne(modelTokens, pods[..n + 1], filter);
      if !Scrapeable(pod, filter) || pod.scrape.None? {
        continue;
      }
      AddAgrees(modelTokens, nsTokens, pod.Key(), TokensOf(pod));
      modelTokens := Add(modelTokens, pod.Key(), TokensOf(pod));
      nsTokens := AddTo(nsTokens, pod.namespace, TokensOf(pod));
    }
    assert pods[..|pods|] == pods;
  }

  function Contribution(pod: Pod, filter: set<string>, key: ModelKey): Tokens {
    if Counted(pod, filter) && pod.Key() == key then TokensOf(pod) else NO_TOKENS
  }

  lemma {:induction false} PodTokensWithout(pods: seq<Pod>, pod: Pod, filter: set<string>, key: ModelKey)
    requires pod in pods
    ensures PodTokens(pods, filter, key) ==
        PodTokens(Order.Without(pods, pod), filter, key).Plus(Contribution(pod, filter, key))
  {
    var n := |pods| - 1;
    if pods[n] != pod {
      PodTokensWithout(pods[..n], pod, filter, key);
      var shorter := Order.Without(pods, pod);
      assert shorter[..n - 1] == Order.Without(pods[..n], pod);
    }
  }

  lemma {:induction false} PodTokensOfBag(pods: seq<Pod>, others: seq<Pod>, filter: set<string>, key: ModelKey)
    requires multiset(pods) == multiset(others)
    ensures PodTokens(pods, filter, key) == PodTokens(others, filter, key)
    decreases |pods|
  {
    Order.SameLength(pods, others);
    if pods != [] {
      var pod := pods[|pods| - 1];
      assert pod in multiset(others);
      Order.WithoutBag(pods, pod);
      Order.WithoutBag(others, pod);
      PodTokensWithout(pods, pod, filter, key);
      PodTokensWithout(others, pod, filter, key);
      PodTokensOfBag(Order.Without(pods, pod), Order.Without(others, pod), filter, key);
    }
  }

  lemma {:induction false} HasCountedIsMembership(pods: seq<Pod>, filter: set<string>, key: ModelKey)
    ensures HasCounted(pods, filter, key) <==> exists pod :: pod in pods && Counted(pod, filter) && pod.Key() == key
  {
    if pods != [] {
      var n := |pods| - 1;
      assert pods == pods[..n] + [pods[n]];
      HasCountedIsMembership(pods[..n], filter, key);
    }
  }

  /** The order in which the API server lists the pods does not matter. */
  lemma PodOrderIsIrrelevant(usage: Usage, usage': Usage, pods: seq<Pod>, others: seq<Pod>, filter: set<string>)
    requires multiset(pods) == multiset(others) && Tallies(usage, pods, filter) && Tallies(usage', others, filter)
    ensures usage == usage'
  {
    forall key ensures key in usage <==> key in usage'
      ensures key in usage ==> usage[key] == usage'[key]
    {
      assert TalliesKey(usage, pods, filter, key) && TalliesKey(usage', others, filter, key);
      PodTokensOfBag(pods, others, filter, key);
      SamePods(pods, others, filter, key);
    }
  }

  lemma SamePods(pods: seq<Pod>, others: seq<Pod>, filter: set<string>, key: ModelKey)
    requires multiset(pods) == multiset(others)
    ensures HasCounted(pods, filter, key) <==> HasCounted(others, filter, key)
  {
    HasCountedIsMembership(pods, filter, key);
    HasCountedIsMembership(others, filter, key);
    forall pod: Pod ensures pod in pods <==> pod in others {
      assert pod in pods <==> pod in multiset(pods);
      assert pod in others <==> pod in multiset(others);
    }
  }

  // ----- in the fields of a pod -----

  /**
    The pods that count towards a report: labelled with a model, running, with an address, answering, and in
    one of the report's namespaces if it names any.
   */
  function Serving(pods: seq<Pod>, namespaces: seq<string>): seq<Pod> {
    if pods == [] then []
    else
      var pod, rest := pods[|pods| - 1], Serving(pods[..|pods| - 1], namespaces);
      if pod.model != "" && pod.running && pod.ip != "" && pod.scrape.Some?
         && (namespaces == [] || pod.namespace in namespaces)
      then rest + [pod] else rest
  }

  function Carrying(pods: seq<Pod>, model: string, namespace: string): seq<Pod> {
    if pods == [] then []
    else
      var pod, rest := pods[|pods| - 1], Carrying(pods[..|pods| - 1], model, namespace);
      if pod.model == model && pod.namespace == namespace then rest + [pod] else rest
  }

  function Prompted(pods: seq<Pod>): real {
    if pods == [] then 0.0
    else Prompted(pods[..|pods| - 1])
         + if pods[|pods| - 1].scrape.Some? then pods[|pods| - 1].scrape.value.promptTotal else 0.0
  }

  function Predicted(pods: seq<Pod>): real {
    if pods == [] then 0.0
    else Predicted(pods[..|pods| - 1])
         + if pods[|pods| - 1].scrape.Some? then pods[|pods| - 1].scrape.value.predictedTotal else 0.0
  }

  /** A whole number of tokens for some counters: each rounded down. */
  predicate RoundedDown(tokens: int, counters: real, pods: nat) {
    0.0 <= counters - tokens as real && (if pods == 0 then counters == 0.0 && tokens == 0
                                         else counters - tokens as real < pods as real)
  }

  /** Input tokens for the prompt counters of some pods, output tokens for their predicted counters. */
  predicate CountsOf(tokens: Tokens, pods: seq<Pod>) {
    && RoundedDown(tokens.input, Prompted(pods), |pods|)
    && RoundedDown(tokens.output, Predicted(pods), |pods|)
  }

  /** A counter is cut off toward zero. */
  lemma TruncatedTowardZero(x: real)
    ensures x >= 0.0 ==> 0.0 <= Truncate(x) as real <= x < Truncate(x) as real + 1.0
    ensures x <= 0.0 ==> Truncate(x) as real - 1.0 < x <= Truncate(x) as real <= 0.0
  {
  }

  lemma OnePodMore(tokens: Tokens, pods: seq<Pod>, pod: Pod)
    requires CountsOf(tokens, pods) && pod.scrape.Some?
    requires pod.scrape.value.promptTotal >= 0.0 && pod.scrape.value.predictedTotal >= 0.0
    ensures CountsOf(tokens.Plus(TokensOf(pod)), pods + [pod])
  {
    assert (pods + [pod])[..|pods|] == pods;
  }

  /** What the selector reads of a pod. */
  lemma CountedIff(pod: Pod, namespaces: seq<string>)
    ensures Counted(pod, FilterOf(namespaces))
       <==> pod.model != "" && pod.running && pod.ip != "" && pod.scrape.Some?
            && (namespaces == [] || pod.namespace in namespaces)
  {
    if namespaces != [] {
      assert namespaces[0] in FilterOf(namespaces);
    }
  }

  predicate CountersNonNegative(pods: seq<Pod>) {
    forall pod :: pod in pods && pod.scrape.Some? ==>
                    pod.scrape.value.promptTotal >= 0.0 && pod.scrape.value.predictedTotal >= 0.0
  }

  lemma {:induction false} PodTokensAreCounters(pods: seq<Pod>, namespaces: seq<string>, key: ModelKey)
    requires CountersNonNegative(pods)
    ensures CountsOf(PodTokens(pods, FilterOf(namespaces), key),
                     Carrying(Serving(pods, namespaces), key.model, key.namespace))
  {
    if pods != [] {
      var n, pod := |pods| - 1, pods[|pods| - 1];
      assert pods == pods[..n] + [pod];
      PodTokensAreCounters(pods[..n], namespaces, key);
      CarriedOneMore(pods, namespaces, key);
      if Counted(pod, FilterOf(namespaces)) && pod.Key() == key {
        OnePodMore(PodTokens(pods[..n], FilterOf(namespaces), key),
                   Carrying(Serving(pods[..n], namespaces), key.model, key.namespace), pod);
      }
    }
  }

  lemma {:induction false} ListedIffCarried(pods: seq<Pod>, namespaces: seq<string>, key: ModelKey)
    ensures HasCounted(pods, FilterOf(namespaces), key)
       <==> Carrying(Serving(pods, namespaces), key.model, key.namespace) != []
  {
    if pods != [] {
      ListedIffCarried(pods[..|pods| - 1], namespaces, key);
      CarriedOneMore(pods, namespaces, key);
    }
  }

  lemma CarriedOneMore(pods: seq<Pod>, namespaces: seq<string>, key: ModelKey)
    requires pods != []
    ensures var n, pod := |pods| - 1, pods[|pods| - 1];
            Carrying(Serving(pods, namespaces), key.model, key.namespace)
            == Carrying(Serving(pods[..n], namespaces), key.model, key.namespace)
               + if Counted(pod, FilterOf(namespaces)) && pod.Key() == key then [pod] else []
  {
    var n, pod := |pods| - 1, pods[|pods| - 1];
    CountedIff(pod, namespaces);
    CarryingOneMore(Serving(pods[..n], namespaces), pod, key.model, key.namespace);
  }

  lemma CarryingOneMore(pods: seq<Pod>, pod: Pod, model: string, namespace: string)
    ensures Carrying(pods + [pod], model, namespace)
         == Carrying(pods, model, namespace) + if pod.model == model && pod.namespace == namespace then [pod] else []
  {
    assert (pods + [pod])[..|pods|] == pods;
  }

  /**
    A report's map has a model of a namespace exactly when a serving pod carries it; its input tokens are the
    prompt counters of those pods and its output tokens the predicted counters, each counter rounded down.
   */
  lemma UsageIsTheCounters(usage: Usage, pods: seq<Pod>, namespaces: seq<string>, model: string, namespace: string)
    requires Tallies(usage, pods, FilterOf(namespaces)) && CountersNonNegative(pods)
    ensures var served, key := Carrying(Serving(pods, namespaces), model, namespace), ModelKey(model, namespace);
            && (key in usage <==> served != [])
            && (key in usage ==> CountsOf(usage[key], served))
  {
    var key := ModelKey(model, namespace);
    PodTokensAreCounters(pods, namespaces, key);
    ListedIffCarried(pods, namespaces, key);
    assert TalliesKey(usage, pods, FilterOf(namespaces), key);
  }

  /** The map that a listing builds pod by pod. */
  function TallyOf(pods: seq<Pod>, filter: set<string>): Usage {
    if pods == [] then map[]
    else
      var pod, rest := pods[|pods| - 1], TallyOf(pods[..|pods| - 1], filter);
      if Counted(pod, filter) then Add(rest, pod.Key(), TokensOf(pod)) else rest
  }

  lemma {:induction false} TallyOfTallies(pods: seq<Pod>, filter: set<string>)
    ensures Tallies(TallyOf(pods, filter), pods, filter)
  {
    if pods != [] {
      TallyOfTallies(pods[..|pods| - 1], filter);
      TallyOne(TallyOf(pods[..|pods| - 1], filter), pods, filter);
    }
  }

  lemma AddToSum(usage: Usage, key: ModelKey, tokens: Tokens)
    ensures Sum(Add(usage, key, tokens), Add(usage, key, tokens).Keys) == Sum(usage, usage.Keys).Plus(tokens)
  {
    var more := Add(usage, key, tokens);
    SumTakes(more, more.Keys, key);
    if key in usage {
      SumTakes(usage, usage.Keys, key);
      assert more.Keys == usage.Keys;
    } else {
      assert more.Keys - {key} == usage.Keys;
      assert usage.Keys - {key} == usage.Keys;
    }
    SumUnchanged(usage, more, usage.Keys - {key});
  }

  lemma {:induction false} TallySums(pods: seq<Pod>, namespaces: seq<string>)
    requires CountersNonNegative(pods)
    ensures var usage := TallyOf(pods, FilterOf(namespaces));
            CountsOf(Sum(usage, usage.Keys), Serving(pods, namespaces))
  {
    if pods != [] {
      var n, pod, filter := |pods| - 1, pods[|pods| - 1], FilterOf(namespaces);
      assert pods == pods[..n] + [pod];
      TallySums(pods[..n], namespaces);
      CountedIff(pod, namespaces);
      if Counted(pod, filter) {
        var usage := TallyOf(pods[..n], filter);
        AddToSum(usage, pod.Key(), TokensOf(pod));
        OnePodMore(Sum(usage, usage.Keys), Serving(pods[..n], namespaces), pod);
      }
    }
  }

  /** A report's totals are the counters of all serving pods, whatever their models. */
  lemma TotalsAreTheCounters(usage: Usage, pods: seq<Pod>, namespaces: seq<string>)
    requires Tallies(usage, pods, FilterOf(namespaces)) && CountersNonNegative(pods)
    ensures CountsOf(Sum(usage, usage.Keys), Serving(pods, namespaces))
  {
    var filter := FilterOf(namespaces);
    TallyOfTallies(pods, filter);
    PodOrderIsIrrelevant(usage, TallyOf(pods, filter), pods, pods, filter);
    TallySums(pods, namespaces);
  }

  // ----- sharing out the cost -----

  datatype ModelCost = ModelCost(model: string, namespace: string, tokens: Tokens,
                                 costUSD: real, costPerMillion: real) {
    function Key(): ModelKey {
      ModelKey(model, namespace)
    }
  }

  datatype NamespaceCost = NamespaceCost(namespace: string, costUSD: real, tokenCount: int, models: seq<string>)

  /** The part of a cost that falls to some of the tokens. */
  function Share(cost: real, tokens: int, total: int): real {
    if total > 0 then cost * (tokens as real / total as real) else 0.0
  }

  function PerMillion(cost: real, tokens: int): real {
    if tokens > 0 then cost / (tokens as real / 1_000_000.0) else 0.0
  }

  lemma ShareAdds(cost: real, a: int, b: int, total: int)
    ensures Share(cost, a + b, total) == Share(cost, a, total) + Share(cost, b, total)
    ensures Share(cost, 0, total) == 0.0
  {
  }

  lemma ShareOfAll(cost: real, total: int)
    requires total > 0
    ensures Share(cost, total, total) == cost
  {
  }

  /** Every model pays the same price per token: the report's own. */
  lemma SharedPrice(cost: real, tokens: int, total: int)
    requires tokens > 0 && total > 0
    ensures PerMillion(Share(cost, tokens, total), tokens) == PerMillion(cost, total)
  {
  }

  function RowKeys(rows: seq<ModelCost>): set<ModelKey> {
    if rows == [] then {} else RowKeys(rows[..|rows| - 1]) + {rows[|rows| - 1].Key()}
  }

  /** One row per key, carrying its tokens, its share, and its price per million. */
  ghost predicate Lists(rows: seq<ModelCost>, usage: Usage, cost: real, total: int) {
    rows == [] ||
    var n, row := |rows| - 1, rows[|rows| - 1];
    && Lists(rows[..n], usage, cost, total)
    && row.Key() in usage && row.Key() !in RowKeys(rows[..n])
    && row.tokens == usage[row.Key()]
    && row.costUSD == Share(cost, row.tokens.Total(), total)
    && row.costPerMillion == PerMillion(row.costUSD, row.tokens.Total())
  }

  function CostOf(row: ModelCost): real {
    row.costUSD
  }

  function TotalCost(rows: seq<ModelCost>): real {
    Order.Total(rows, CostOf)
  }

  function CostIn(rows: seq<ModelCost>, ns: string): real {
    if rows == [] then 0.0
    else CostIn(rows[..|rows| - 1], ns) + if rows[|rows| - 1].namespace == ns then rows[|rows| - 1].costUSD else 0.0
  }

  function NamespaceCostOf(row: NamespaceCost): real {
    row.costUSD
  }

  function RowTokens(rows: seq<ModelCost>): int {
    if rows == [] then 0 else RowTokens(rows[..|rows| - 1]) + rows[|rows| - 1].tokens.Total()
  }

  function RowTokensIn(rows: seq<ModelCost>, ns: string): int {
    if rows == [] then 0
    else RowTokensIn(rows[..|rows| - 1], ns)
         + if rows[|rows| - 1].namespace == ns then rows[|rows| - 1].tokens.Total() else 0
  }

  /** The rows' costs are shares of the rows' tokens, in all and in each namespace. */
  lemma {:induction false} ListedCosts(rows: seq<ModelCost>, usage: Usage, cost: real, total: int, ns: string)
    requires Lists(rows, usage, cost, total)
    ensures TotalCost(rows) == Share(cost, RowTokens(rows), total)
    ensures CostIn(rows, ns) == Share(cost, RowTokensIn(rows, ns), total)
  {
    ShareAdds(cost, 0, 0, total);
    if rows != [] {
      var n := |rows| - 1;
      ListedCosts(rows[..n], usage, cost, total, ns);
      ShareAdds(cost, RowTokens(rows[..n]), rows[n].tokens.Total(), total);
      ShareAdds(cost, RowTokensIn(rows[..n], ns), rows[n].tokens.Total(), total);
    }
  }

  lemma {:induction false} ListedKeys(rows: seq<ModelCost>, usage: Usage, cost: real, total: int)
    requires Lists(rows, usage, cost, total)
    ensures RowKeys(rows) <= usage.Keys
  {
    if rows != [] {
      ListedKeys(rows[..|rows| - 1], usage, cost, total);
    }
  }

  /** A listing counts every token of its keys once. */
  lemma {:induction false} ListedTokens(rows: seq<ModelCost>, usage: Usage, cost: real, total: int)
    requires Lists(rows, usage, cost, total) && RowKeys(rows) <= usage.Keys
    ensures RowTokens(rows) == SumTotal(usage, RowKeys(rows))
  {
    if rows != [] {
      var n := |rows| - 1;
      ListedKeys(rows[..n], usage, cost, total);
      ListedTokens(rows[..n], usage, cost, total);
      SumGrows(usage, RowKeys(rows[..n]), rows[n].Key());
    }
  }

  lemma {:induction false} ListedTokensIn(rows: seq<ModelCost>, usage: Usage, cost: real, total: int, ns: string)
    requires Lists(rows, usage, cost, total) && RowKeys(rows) <= usage.Keys
    ensures RowTokensIn(rows, ns) == SumTotal(usage, KeysIn(RowKeys(rows), ns))
  {
    if rows != [] {
      var n := |rows| - 1;
      ListedKeys(rows[..n], usage, cost, total);
      ListedTokensIn(rows[..n], usage, cost, total, ns);
      SumGrowsIn(usage, RowKeys(rows[..n]), rows[n].Key(), ns);
    }
  }

  lemma SumGrows(usage: Usage, keys: set<ModelKey>, key: ModelKey)
    requires keys <= usage.Keys && key in usage && key !in keys
    ensures Sum(usage, keys + {key}) == usage[key].Plus(Sum(usage, keys))
  {
    SumTakes(usage, keys + {key}, key);
    assert keys + {key} - {key} == keys;
  }

  lemma SumGrowsIn(usage: Usage, keys: set<ModelKey>, key: ModelKey, ns: string)
    requires keys <= usage.Keys && key in usage && key !in keys
    ensures Sum(usage, KeysIn(keys + {key}, ns))
         == if key.namespace == ns then usage[key].Plus(Sum(usage, KeysIn(keys, ns))) else Sum(usage, KeysIn(keys, ns))
  {
    if key.namespace == ns {
      SumGrows(usage, KeysIn(keys, ns), key);
      assert KeysIn(keys + {key}, ns) == KeysIn(keys, ns) + {key};
    } else {
      assert KeysIn(keys + {key}, ns) == KeysIn(keys, ns);
    }
  }

  // ----- the breakdowns of a report -----

  /** The namespaces' rows: one each, with its tokens, its share, and each of its models once. */
  ghost predicate ListsNamespaces(rows: seq<NamespaceCost>, usage: Usage, nsTokens: map<string, Tokens>, cost: real,
        total: int) {
    rows == [] ||
    var n, row := |rows| - 1, rows[|rows| - 1];
    && ListsNamespaces(rows[..n], usage, nsTokens, cost, total)
    && row.namespace in nsTokens && row.namespace !in NamespacesOf(rows[..n])
    && row.tokenCount == nsTokens[row.namespace].Total()
    && row.costUSD == Share(cost, row.tokenCount, total)
    && NamesOnce(row.models, KeysIn(usage.Keys, row.namespace))
  }

  function NamespacesOf(rows: seq<NamespaceCost>): set<string> {
    if rows == [] then {} else NamespacesOf(rows[..|rows| - 1]) + {rows[|rows| - 1].namespace}
  }

  ghost predicate NamesOnce(models: seq<string>, keys: set<ModelKey>) {
    multiset(models) == multiset(ModelsOf(keys))
  }

  function ModelsOf(keys: set<ModelKey>): set<string> {
    set key | key in keys :: key.model
  }

  /** Shares out the period's cost by model and by namespace, taking the map entries in whatever order they come. */
  method BuildBreakdowns(modelTokens: Usage, nsTokens: map<string, Tokens>, totalCost: real)
    returns (byModel: seq<ModelCost>, byNamespace: seq<NamespaceCost>, totalIn: int, totalOut: int)
    ensures Tokens(totalIn, totalOut) == Sum(modelTokens, modelTokens.Keys)
    ensures Lists(byModel, modelTokens, totalCost, totalIn + totalOut) && RowKeys(byModel) == modelTokens.Keys
    ensures ListsNamespaces(byNamespace, modelTokens, nsTokens, totalCost, totalIn + totalOut)
    ensures NamespacesOf(byNamespace) == nsTokens.Keys
  {
    var totals := SumTokens(modelTokens);
    totalIn, totalOut := totals.input, totals.output;
    byModel := ListModels(modelTokens, totalCost, totalIn + totalOut);
    byNamespace := ListNamespaces(modelTokens, nsTokens, totalCost, totalIn + totalOut);
  }

  method SumTokens(usage: Usage) returns (sum: Tokens)
    ensures sum == Sum(usage, usage.Keys)
  {
    sum := NO_TOKENS;
    var rest := usage.Keys;
    while rest != {}
      invariant rest <= usage.Keys && sum.Plus(Sum(usage, rest)) == Sum(usage, usage.Keys)
    {
      var key :| key in rest;
      SumTakes(usage, rest, key);
      sum := sum.Plus(usage[key]);
      rest := rest - {key};
    }
  }

  method ListModels(usage: Usage, cost: real, total: int) returns (rows: seq<ModelCost>)
    ensures Lists(rows, usage, cost, total) && RowKeys(rows) == usage.Keys
  {
    rows := [];
    var rest := usage.Keys;
    while rest != {}
      invariant rest <= usage.Keys
      invariant Lists(rows, usage, cost, total) && RowKeys(rows) == usage.Keys - rest
    {
      var key :| key in rest;
      var tokens := usage[key];
      var share := Share(cost, tokens.Total(), total);
      var row := ModelCost(key.model, key.namespace, tokens, share, PerMillion(share, tokens.Total()));
      ListsExtend(rows, row, usage, cost, total);
      rows := rows + [row];
      rest := rest - {key};
    }
  }

  lemma ListsExtend(rows: seq<ModelCost>, row: ModelCost, usage: Usage, cost: real, total: int)
    requires Lists(rows, usage, cost, total) && row.Key() in usage && row.Key() !in RowKeys(rows)
    requires row.tokens == usage[row.Key()] && row.costUSD == Share(cost, row.tokens.Total(), total)
    requires row.costPerMillion == PerMillion(row.costUSD, row.tokens.Total())
    ensures Lists(rows + [row], usage, cost, total) && RowKeys(rows + [row]) == RowKeys(rows) + {row.Key()}
  {
  }

  method ListNamespaces(usage: Usage, nsTokens: map<string, Tokens>, cost: real, total: int)
    returns (rows: seq<NamespaceCost>)
    ensures ListsNamespaces(rows, usage, nsTokens, cost, total) && NamespacesOf(rows) == nsTokens.Keys
  {
    rows := [];
    var rest := nsTokens.Keys;
    while rest != {}
      invariant rest <= nsTokens.Keys
      invariant ListsNamespaces(rows, usage, nsTokens, cost, total) && NamespacesOf(rows) == nsTokens.Keys - rest
    {
      var ns :| ns in rest;
      var models := ListModelNames(usage, ns);
      var row := NamespaceCost(ns, Share(cost, nsTokens[ns].Total(), total), nsTokens[ns].Total(), models);
      ListsNamespacesExtend(rows, row, usage, nsTokens, cost, total);
      OneDone(nsTokens.Keys, rest, ns);
      rows := rows + [row];
      rest := rest - {ns};
    }
  }

  lemma OneDone<T>(all: set<T>, rest: set<T>, x: T)
    requires rest <= all && x in rest
    ensures all - (rest - {x}) == all - rest + {x} && rest - {x} <= all
  {
  }

  lemma ListsNamespacesExtend(rows: seq<NamespaceCost>, row: NamespaceCost,
      usage: Usage, nsTokens: map<string, Tokens>, cost: real, total: int)
    requires ListsNamespaces(rows, usage, nsTokens, cost, total)
    requires row.namespace in nsTokens && row.namespace !in NamespacesOf(rows)
    requires row.tokenCount == nsTokens[row.namespace].Total() && row.costUSD == Share(cost, row.tokenCount, total)
    requires NamesOnce(row.models, KeysIn(usage.Keys, row.namespace))
    ensures ListsNamespaces(rows + [row], usage, nsTokens, cost, total)
    ensures NamespacesOf(rows + [row]) == NamespacesOf(rows) + {row.namespace}
  {
  }

  method ListModelNames(usage: Usage, ns: string) returns (models: seq<string>)
    ensures NamesOnce(models, KeysIn(usage.Keys, ns))
  {
    models := [];
    var rest := usage.Keys;
    assert KeysIn(usage.Keys - rest, ns) == {};
    while rest != {}
      invariant rest <= usage.Keys
      invariant NamesOnce(models, KeysIn(usage.Keys - rest, ns))
    {
      var key :| key in rest;
      ghost var before := KeysIn(usage.Keys - rest, ns);
      rest := rest - {key};
      if key.namespace == ns {
        assert KeysIn(usage.Keys - rest, ns) == before + {key};
        NewModel(models, before, key, ns);
        models := models + [key.model];
      } else {
        assert KeysIn(usage.Keys - rest, ns) == before;
      }
    }
    assert usage.Keys - rest == usage.Keys;
  }

  lemma NewModel(models: seq<string>, keys: set<ModelKey>, key: ModelKey, ns: string)
    requires key !in keys && key.namespace == ns && forall k :: k in keys ==> k.namespace == ns
    requires NamesOnce(models, keys)
    ensures NamesOnce(models + [key.model], keys + {key})
  {
  }

  // ----- conservation -----

  /** The models' costs add up to the cost of the period, or to nothing when no token was served. */
  lemma ModelCostsConserve(rows: seq<ModelCost>, usage: Usage, cost: real, total: int)
    requires Lists(rows, usage, cost, total) && RowKeys(rows) == usage.Keys && total == SumTotal(usage, usage.Keys)
    ensures TotalCost(rows) == if total > 0 then cost else 0.0
  {
    ListedCosts(rows, usage, cost, total, "");
    ListedTokens(rows, usage, cost, total);
    if total > 0 {
      ShareOfAll(cost, total);
    }
  }

  /** A namespace costs what its models cost, and holds the tokens they served. */
  lemma {:induction false} NamespaceCostsAreTheirModels(rows: seq<ModelCost>, byNamespace: seq<NamespaceCost>,
      usage: Usage, nsTokens: map<string, Tokens>, cost: real, total: int, i: nat)
    requires Lists(rows, usage, cost, total) && RowKeys(rows) == usage.Keys && Agree(usage, nsTokens)
    requires ListsNamespaces(byNamespace, usage, nsTokens, cost, total) && i < |byNamespace|
    ensures byNamespace[i].costUSD == CostIn(rows, byNamespace[i].namespace)
    ensures byNamespace[i].tokenCount == RowTokensIn(rows, byNamespace[i].namespace)
    decreases |byNamespace|
  {
    if i == |byNamespace| - 1 {
      var ns := byNamespace[i].namespace;
      ListedCosts(rows, usage, cost, total, ns);
      ListedTokensIn(rows, usage, cost, total, ns);
    } else {
      NamespaceCostsAreTheirModels(rows, byNamespace[..|byNamespace| - 1], usage, nsTokens, cost, total, i);
    }
  }

  /** A namespace's row names each of the models that its usage has, once. */
  lemma {:induction false} NamespacesNameTheirModels(byNamespace: seq<NamespaceCost>, usage: Usage,
      nsTokens: map<string, Tokens>, cost: real, total: int, i: nat, model: string)
    requires ListsNamespaces(byNamespace, usage, nsTokens, cost, total) && i < |byNamespace|
    ensures multiset(byNamespace[i].models)[model]
         == if ModelKey(model, byNamespace[i].namespace) in usage then 1 else 0
    decreases |byNamespace|
  {
    if i == |byNamespace| - 1 {
      var ns := byNamespace[i].namespace;
      var keys := KeysIn(usage.Keys, ns);
      assert ModelKey(model, ns) in keys <==> model in ModelsOf(keys) by {
        if model in ModelsOf(keys) {
          var key :| key in keys && key.model == model;
          assert key == ModelKey(model, ns);
        }
      }
    } else {
      NamespacesNameTheirModels(byNamespace[..|byNamespace| - 1], usage, nsTokens, cost, total, i, model);
    }
  }

  function CostWithin(rows: seq<ModelCost>, namespaces: set<string>): real {
    if rows == [] then 0.0
    else CostWithin(rows[..|rows| - 1], namespaces)
         + if rows[|rows| - 1].namespace in namespaces then rows[|rows| - 1].costUSD else 0.0
  }

  lemma {:induction false} OneNamespaceMore(rows: seq<ModelCost>, namespaces: set<string>, ns: string)
    requires ns !in namespaces
    ensures CostWithin(rows, namespaces + {ns}) == CostWithin(rows, namespaces) + CostIn(rows, ns)
    ensures CostWithin(rows, {}) == 0.0
  {
    if rows != [] {
      OneNamespaceMore(rows[..|rows| - 1], namespaces, ns);
    }
  }

  lemma {:induction false} EveryNamespaceListed(rows: seq<ModelCost>, namespaces: set<string>)
    requires forall key :: key in RowKeys(rows) ==> key.namespace in namespaces
    ensures CostWithin(rows, namespaces) == TotalCost(rows)
  {
    if rows != [] {
      var n := |rows| - 1;
      EveryNamespaceListed(rows[..n], namespaces);
      assert rows[n].Key() in RowKeys(rows);
    }
  }

  lemma {:induction false} NamespaceRowsAdd(rows: seq<ModelCost>, byNamespace: seq<NamespaceCost>,
      usage: Usage, nsTokens: map<string, Tokens>, cost: real, total: int)
    requires Lists(rows, usage, cost, total) && RowKeys(rows) == usage.Keys && Agree(usage, nsTokens)
    requires ListsNamespaces(byNamespace, usage, nsTokens, cost, total)
    ensures Order.Total(byNamespace, NamespaceCostOf) == CostWithin(rows, NamespacesOf(byNamespace))
    decreases |byNamespace|
  {
    if byNamespace == [] {
      OneNamespaceMore(rows, {}, "");
    } else {
      var n := |byNamespace| - 1;
      NamespaceRowsAdd(rows, byNamespace[..n], usage, nsTokens, cost, total);
      NamespaceCostsAreTheirModels(rows, byNamespace, usage, nsTokens, cost, total, n);
      OneNamespaceMore(rows, NamespacesOf(byNamespace[..n]), byNamespace[n].namespace);
    }
  }

  function NamespaceTotal(rows: seq<NamespaceCost>): real {
    Order.Total(rows, NamespaceCostOf)
  }

  /** The namespaces' costs add up to the same amount as the models'. */
  lemma NamespaceCostsConserve(rows: seq<ModelCost>, byNamespace: seq<NamespaceCost>,
      usage: Usage, nsTokens: map<string, Tokens>, cost: real, total: int)
    requires Lists(rows, usage, cost, total) && RowKeys(rows) == usage.Keys && Agree(usage, nsTokens)
    requires ListsNamespaces(byNamespace, usage, nsTokens, cost, total) && NamespacesOf(byNamespace) == nsTokens.Keys
    ensures NamespaceTotal(byNamespace) == TotalCost(rows)
  {
    NamespaceRowsAdd(rows, byNamespace, usage, nsTokens, cost, total);
    EveryNamespaceListed(rows, nsTokens.Keys);
  }

  /** Every model that served tokens is listed at the report's own blended price. */
  lemma {:induction false} ModelPricesAreTheBlend(rows: seq<ModelCost>, usage: Usage, cost: real, total: int, i: nat)
    requires Lists(rows, usage, cost, total) && i < |rows| && rows[i].tokens.Total() > 0 && total > 0
    ensures rows[i].costPerMillion == PerMillion(cost, total)
    decreases |rows|
  {
    if i == |rows| - 1 {
      SharedPrice(cost, rows[i].tokens.Total(), total);
    } else {
      ModelPricesAreTheBlend(rows[..|rows| - 1], usage, cost, total, i);
    }
  }
}
