/**
  The FOCUS export: reports sorted by namespace and name, each expanded into one row for each of its
  models, sorted likewise, or into one rollup row.  The sort promises nothing about ties, so the order of
  the output is stated as a relation; it is a function exactly when no two different inputs tie.
 */
module FocusExport {
  import opened Common
  import opened Attribution
  import opened Order

  datatype CloudEntry = CloudEntry(provider: string, model: string, cloudCostUSD: real, savingsUSD: real,
        savingsPercent: real)

  datatype Profile = Profile(gpuModel: string, gpuCount: int, amortizationYears: int, ratePerKWh: real, pueFactor: real)

  const NO_PROFILE := Profile("", 0, 0, 0.0, 0.0)

  datatype Report = Report(namespace: string, name: string, costProfileRef: string, period: string, start: Option<int>,
                           end: Option<int>, costUSD: real, tokens: Tokens, byModel: seq<ModelCost>,
                               cloud: seq<CloudEntry>)

  /** The columns of a row that vary; the constant ones and the text formats are left out. */
  datatype Row = Row(billedCost: real, start: Option<int>, end: Option<int>, resourceId: string, resourceName: string,
                     region: string, usageQuantity: int, chargeDescription: string, skuId: string, subAccountId: string,
                     profileName: string, profile: Profile, tokens: Tokens, best: Option<CloudEntry>, savingsUSD: real)

  datatype Input = Input(reports: seq<Report>, profiles: map<string, Profile>, region: string)

  // ----- rows -----

  /** The comparison with the highest savings, the first of them if several tie. */
  method BestCloudComparison(entries: seq<CloudEntry>) returns (best: Option<CloudEntry>)
    ensures best == Best(entries)
  {
    if |entries| == 0 {
      return None;
    }
    var b := 0;
    assert entries[..1] == [entries[0]];
    for i := 1 to |entries|
      invariant b < i && Best(entries[..i]) == Some(entries[b])
    {
      assert entries[..i + 1][..i] == entries[..i];
      if entries[i].savingsUSD > entries[b].savingsUSD {
        b := i;
      }
    }
    assert entries[..|entries|] == entries;
    return Some(entries[b]);
  }

  function Best(entries: seq<CloudEntry>): Option<CloudEntry> {
    if entries == [] then None
    else
      var last, before := entries[|entries| - 1], Best(entries[..|entries| - 1]);
      if before.None? || last.savingsUSD > before.value.savingsUSD then Some(last) else before
  }

  predicate FirstMaximum(entries: seq<CloudEntry>, b: nat) {
    && b < |entries|
    && (forall i :: 0 <= i < b ==> entries[i].savingsUSD < entries[b].savingsUSD)
    && (forall i :: b <= i < |entries| ==> entries[i].savingsUSD <= entries[b].savingsUSD)
  }

  lemma {:induction false} BestIsTheFirstMaximum(entries: seq<CloudEntry>) returns (b: nat)
    requires entries != []
    ensures FirstMaximum(entries, b) && Best(entries) == Some(entries[b])
  {
    var n := |entries| - 1;
    b := n;
    if n > 0 {
      b := BestIsTheFirstMaximum(entries[..n]);
      assert forall i :: 0 <= i < n ==> entries[..n][i] == entries[i];
      if entries[n].savingsUSD > entries[b].savingsUSD {
        b := n;
      }
    }
  }

  function ProfileOf(input: Input, r: Report): Profile {
    if r.costProfileRef in input.profiles then input.profiles[r.costProfileRef] else NO_PROFILE
  }

  function Savings(best: Option<CloudEntry>, onPremCost: real): real {
    if best.Some? then best.value.cloudCostUSD - onPremCost else 0.0
  }

  function RowFromModel(r: Report, m: ModelCost, profile: Profile, region: string, best: Option<CloudEntry>): Row {
    Row(m.costUSD, r.start, r.end, r.namespace + "/" + r.name + "/" + m.model, m.model, region, m.tokens.Total(),
        "Inference on " + m.model + " for period " + r.period, m.model, m.namespace,
        r.costProfileRef, profile, m.tokens, best, Savings(best, m.costUSD))
  }

  function RowFromTotals(r: Report, profile: Profile, region: string, best: Option<CloudEntry>): Row {
    Row(r.costUSD, r.start, r.end, r.namespace + "/" + r.name, r.name, region, r.tokens.Total(),
        "Inference rollup for period " + r.period + " (no model breakdown)", "", r.namespace,
        r.costProfileRef, profile, r.tokens, best, Savings(best, r.costUSD))
  }

  /** The rows of a report whose models come in this order. */
  function RowsInOrder(r: Report, models: seq<ModelCost>, profile: Profile, region: string): seq<Row> {
    if models == [] then []
    else RowsInOrder(r, models[..|models| - 1], profile, region)
         + [RowFromModel(r, models[|models| - 1], profile, region, Best(r.cloud))]
  }

  function Expand(r: Report, models: seq<ModelCost>, profile: Profile, region: string): seq<Row> {
    if models == [] then [RowFromTotals(r, profile, region, Best(r.cloud))] else RowsInOrder(r, models, profile, region)
  }

  // ----- orders -----

  predicate PairLeq(a: string, b: string, a': string, b': string) {
    if a != a' then Less(a, a', CharCode) else StringLeq(b, b')
  }

  predicate ReportLeq(r: Report, s: Report) {
    PairLeq(r.namespace, r.name, s.namespace, s.name)
  }

  predicate ModelLeq(m: ModelCost, n: ModelCost) {
    PairLeq(m.namespace, m.model, n.namespace, n.model)
  }

  lemma PairOrder(a: string, b: string, a': string, b': string, a'': string, b'': string)
    ensures PairLeq(a, b, a', b') || PairLeq(a', b', a, b)
    ensures PairLeq(a, b, a', b') && PairLeq(a', b', a, b) ==> a == a' && b == b'
    ensures PairLeq(a, b, a', b') && PairLeq(a', b', a'', b'') ==> PairLeq(a, b, a'', b'')
  {
    StringOrder(a, a', a'');
    StringOrder(b, b', b'');
    StringOrder(a, a', a);
  }

  lemma StringOrder(a: string, b: string, c: string)
    ensures a == b || Less(a, b, CharCode) || Less(b, a, CharCode)
    ensures !(Less(a, b, CharCode) && (a == b || Less(b, a, CharCode)))
    ensures Less(a, b, CharCode) && Less(b, c, CharCode) ==> Less(a, c, CharCode)
  {
    LessTotal(a, b, CharCode);
    LessIrreflexive(a, CharCode);
    if Less(a, b, CharCode) && Less(b, a, CharCode) {
      LessTransitive(a, b, a, CharCode);
    }
    if Less(a, b, CharCode) && Less(b, c, CharCode) {
      LessTransitive(a, b, c, CharCode);
    }
  }

  lemma ReportOrder()
    ensures TotalPreorder(ReportLeq)
  {
    forall r: Report, s: Report ensures Comparable(ReportLeq, r, s) {
      PairOrder(r.namespace, r.name, s.namespace, s.name, "", "");
    }
    forall r: Report, s: Report, t: Report ensures Chains(ReportLeq, r, s, t) {
      PairOrder(r.namespace, r.name, s.namespace, s.name, t.namespace, t.name);
    }
  }

  lemma ModelOrder()
    ensures TotalPreorder(ModelLeq)
  {
    forall r: ModelCost, s: ModelCost ensures Comparable(ModelLeq, r, s) {
      PairOrder(r.namespace, r.model, s.namespace, s.model, "", "");
    }
    forall r: ModelCost, s: ModelCost, t: ModelCost ensures Chains(ModelLeq, r, s, t) {
      PairOrder(r.namespace, r.model, s.namespace, s.model, t.namespace, t.model);
    }
  }

  // ----- the export -----

  /** A possible expansion of a report: its models in some sorted order. */
  ghost predicate ExpandsTo(r: Report, profile: Profile, region: string, rows: seq<Row>) {
    exists models :: Arranged(models, r.byModel, ModelLeq) && rows == Expand(r, models, profile, region)
  }

  method RowsForReport(r: Report, input: Input) returns (rows: seq<Row>)
    ensures ExpandsTo(r, ProfileOf(input, r), input.region, rows)
  {
    var profile := ProfileOf(input, r);
    var best := BestCloudComparison(r.cloud);
    if |r.byModel| == 0 {
      assert Arranged([], r.byModel, ModelLeq);
      rows := [RowFromTotals(r, profile, input.region, best)];
      assert rows == Expand(r, [], profile, input.region);
      return;
    }
    ModelOrder();
    var models := Sort(r.byModel, ModelLeq);
    SameLength(models, r.byModel);
    rows := [];
    for i := 0 to |models|
      invariant rows == RowsInOrder(r, models[..i], profile, input.region)
    {
      assert models[..i + 1][..i] == models[..i];
      rows := rows + [RowFromModel(r, models[i], profile, input.region, best)];
    }
    assert models[..|models|] == models;
    assert rows == Expand(r, models, profile, input.region);
  }

  function Concat(parts: seq<seq<Row>>): seq<Row> {
    if parts == [] then [] else Concat(parts[..|parts| - 1]) + parts[|parts| - 1]
  }

  ghost predicate PartsOf(parts: seq<seq<Row>>, order: seq<Report>, input: Input) {
    |parts| == |order|
    && forall i :: 0 <= i < |parts| ==> ExpandsTo(order[i], ProfileOf(input, order[i]), input.region, parts[i])
  }

  /** A possible export: the reports in some sorted order, each expanded. */
  ghost predicate Exports(input: Input, rows: seq<Row>) {
    exists order, parts :: Arranged(order, input.reports, ReportLeq) && PartsOf(parts, order, input) &&
        rows == Concat(parts)
  }

  method Write(input: Input) returns (rows: seq<Row>)
    ensures Exports(input, rows)
  {
    ReportOrder();
    var reports := Sort(input.reports, ReportLeq);
    ghost var parts := [];
    rows := [];
    for i := 0 to |reports|
      invariant PartsOf(parts, reports[..i], input) && rows == Concat(parts)
    {
      var part := RowsForReport(reports[i], input);
      OnePartMore(parts, part, reports, i, input);
      parts := parts + [part];
      rows := rows + part;
    }
    assert reports[..|reports|] == reports;
  }

  lemma OnePartMore(parts: seq<seq<Row>>, part: seq<Row>, order: seq<Report>, i: nat, input: Input)
    requires i < |order| && PartsOf(parts, order[..i], input)
    requires ExpandsTo(order[i], ProfileOf(input, order[i]), input.region, part)
    ensures PartsOf(parts + [part], order[..i + 1], input) && Concat(parts + [part]) == Concat(parts) + part
  {
    assert (parts + [part])[..|parts|] == parts;
  }

  // ----- a function of content -----

  /** A report with its models as a bag. */
  datatype Content = Content(rest: Report, models: multiset<ModelCost>)

  function ContentOf(r: Report): Content {
    Content(r.(byModel := []), multiset(r.byModel))
  }

  /** No two different models of a report share namespace and name. */
  ghost predicate DistinctModels(models: multiset<ModelCost>) {
    Separated(models, ModelLeq)
  }

  ghost predicate DistinctReports(reports: seq<Report>) {
    && (forall r, s :: r in reports && s in reports && r.namespace == s.namespace && r.name == s.name ==>
          ContentOf(r) == ContentOf(s))
    && (forall r :: r in reports ==> DistinctModels(multiset(r.byModel)))
  }

  predicate ContentLeq(c: Content, d: Content) {
    ReportLeq(c.rest, d.rest)
  }

  /** The rows of a report depend on its content only. */
  lemma ExpansionIsUnique(r: Report, s: Report, profile: Profile, region: string, rows: seq<Row>, rows': seq<Row>)
    requires ContentOf(r) == ContentOf(s) && DistinctModels(multiset(r.byModel))
    requires ExpandsTo(r, profile, region, rows) && ExpandsTo(s, profile, region, rows')
    ensures rows == rows'
  {
    var models :| Arranged(models, r.byModel, ModelLeq) && rows == Expand(r, models, profile, region);
    var models' :| Arranged(models', s.byModel, ModelLeq) && rows' == Expand(s, models', profile, region);
    ModelOrder();
    ArrangementUnique(models, models', ModelLeq);
    RowsIgnoreStoredOrder(r, s, models, profile, region);
  }

  lemma {:induction false} RowsIgnoreStoredOrder(r: Report, s: Report, models: seq<ModelCost>, profile: Profile,
        region: string)
    requires ContentOf(r) == ContentOf(s)
    ensures RowsInOrder(r, models, profile, region) == RowsInOrder(s, models, profile, region)
    ensures Expand(r, models, profile, region) == Expand(s, models, profile, region)
  {
    assert r.(byModel := []) == s.(byModel := []);
    if models != [] {
      RowsIgnoreStoredOrder(r, s, models[..|models| - 1], profile, region);
    }
  }

  lemma ContentOrder()
    ensures TotalPreorder(ContentLeq)
  {
    ReportOrder();
    forall c: Content, d: Content ensures Comparable(ContentLeq, c, d) {
      assert Comparable(ReportLeq, c.rest, d.rest);
    }
    forall c: Content, d: Content, e: Content ensures Chains(ContentLeq, c, d, e) {
      assert Chains(ReportLeq, c.rest, d.rest, e.rest);
    }
  }

  /** Sorting reports sorts their contents. */
  lemma ContentsSorted(order: seq<Report>, reports: seq<Report>)
    requires Arranged(order, reports, ReportLeq)
    ensures Arranged(Image(order, ContentOf), Image(reports, ContentOf), ContentLeq)
  {
    ImagesOfEqualBags(order, reports, ContentOf);
    ImageAt(order, ContentOf);
  }

  lemma ContentsSeparated(order: seq<Report>, reports: seq<Report>)
    requires multiset(order) == multiset(reports) && DistinctReports(reports)
    ensures Separated(multiset(Image(order, ContentOf)), ContentLeq)
  {
    ImageAt(order, ContentOf);
    var contents := Image(order, ContentOf);
    forall c, d | c in multiset(contents) && d in multiset(contents) && ContentLeq(c, d) && ContentLeq(d, c)
      ensures c == d
    {
      var i :| 0 <= i < |order| && contents[i] == c;
      var j :| 0 <= j < |order| && contents[j] == d;
      TiesAreEqual(order, reports, i, j);
    }
  }

  lemma TiesAreEqual(order: seq<Report>, reports: seq<Report>, i: nat, j: nat)
    requires multiset(order) == multiset(reports) && DistinctReports(reports) && i < |order| && j < |order|
    requires ReportLeq(order[i], order[j]) && ReportLeq(order[j], order[i])
    ensures ContentOf(order[i]) == ContentOf(order[j])
  {
    var r, s := order[i], order[j];
    PairOrder(r.namespace, r.name, s.namespace, s.name, "", "");
    assert r in multiset(reports) && s in multiset(reports);
  }

  /**
    The export is a function of content: permuting the reports, or the models inside any of them,
    gives the same rows in the same order, as long as names are not shared.
   */
  lemma ExportIsAFunctionOfContent(input: Input, permuted: Input, rows: seq<Row>, rows': seq<Row>)
    requires input.profiles == permuted.profiles && input.region == permuted.region
    requires multiset(Image(input.reports, ContentOf)) == multiset(Image(permuted.reports, ContentOf))
    requires DistinctReports(input.reports)
    requires Exports(input, rows) && Exports(permuted, rows')
    ensures rows == rows'
  {
    var order: seq<Report>, parts :|
      Arranged(order, input.reports, ReportLeq) && PartsOf(parts, order, input) && rows == Concat(parts);
    var order': seq<Report>, parts' :|
      Arranged(order', permuted.reports, ReportLeq) && PartsOf(parts', order', permuted) && rows' == Concat(parts');
    SameContents(input, permuted, order, order');
    SameParts(input, permuted, order, order', parts, parts');
  }

  lemma SameParts(input: Input, permuted: Input, order: seq<Report>, order': seq<Report>, parts: seq<seq<Row>>,
                  parts': seq<seq<Row>>)
    requires input.profiles == permuted.profiles && input.region == permuted.region
    requires multiset(order) == multiset(input.reports) && DistinctReports(input.reports)
    requires |order| == |order'| && forall i :: 0 <= i < |order| ==> ContentOf(order[i]) == ContentOf(order'[i])
    requires PartsOf(parts, order, input) && PartsOf(parts', order', permuted)
    ensures parts == parts'
  {
    forall i | 0 <= i < |order| ensures parts[i] == parts'[i] {
      assert order[i] in multiset(input.reports);
      SamePart(order[i], order'[i], input, permuted, parts[i], parts'[i]);
    }
  }

  lemma SamePart(r: Report, s: Report, input: Input, permuted: Input, rows: seq<Row>, rows': seq<Row>)
    requires input.profiles == permuted.profiles && input.region == permuted.region
    requires r in input.reports && DistinctReports(input.reports) && ContentOf(r) == ContentOf(s)
    requires ExpandsTo(r, ProfileOf(input, r), input.region, rows)
    requires ExpandsTo(s, ProfileOf(permuted, s), permuted.region, rows')
    ensures rows == rows'
  {
    assert ContentOf(r).rest == ContentOf(s).rest;
    ExpansionIsUnique(r, s, ProfileOf(input, r), input.region, rows, rows');
  }

  lemma SameContents(input: Input, permuted: Input, order: seq<Report>, order': seq<Report>)
    requires multiset(Image(input.reports, ContentOf)) == multiset(Image(permuted.reports, ContentOf))
    requires DistinctReports(input.reports)
    requires Arranged(order, input.reports, ReportLeq) && Arranged(order', permuted.reports, ReportLeq)
    ensures |order| == |order'| && forall i :: 0 <= i < |order| ==> ContentOf(order[i]) == ContentOf(order'[i])
  {
    ContentsSorted(order, input.reports);
    ContentsSorted(order', permuted.reports);
    ContentsSeparated(order, input.reports);
    ContentOrder();
    ArrangementUnique(Image(order, ContentOf), Image(order', ContentOf), ContentLeq);
    ImageAt(order, ContentOf);
    ImageAt(order', ContentOf);
  }

  // ----- what a row says -----

  /** A report's part of a row: period, place, profile, and the best comparison against what the row bills. */
  ghost predicate SpeaksOf(row: Row, r: Report, input: Input) {
    && row.start == r.start && row.end == r.end && row.region == input.region && row.profileName == r.costProfileRef
    && (r.costProfileRef in input.profiles ==> row.profile == input.profiles[r.costProfileRef])
    && (r.costProfileRef !in input.profiles ==> row.profile == Profile("", 0, 0, 0.0, 0.0))
    && row.usageQuantity == row.tokens.input + row.tokens.output
    && (if r.cloud == [] then row.best == None && row.savingsUSD == 0.0
        else exists b: nat :: FirstMaximum(r.cloud, b) && row.best == Some(r.cloud[b])
                         && row.savingsUSD + row.billedCost == r.cloud[b].cloudCostUSD)
  }

  /** The row of a model: its cost, tokens and names. */
  ghost predicate RowOfModel(row: Row, r: Report, m: ModelCost, input: Input) {
    && SpeaksOf(row, r, input)
    && row.billedCost == m.costUSD && row.tokens.input == m.tokens.input && row.tokens.output == m.tokens.output
    && row.resourceId == r.namespace + "/" + r.name + "/" + m.model && row.resourceName == m.model
    && row.skuId == m.model && row.subAccountId == m.namespace
    && row.chargeDescription == "Inference on " + m.model + " for period " + r.period
  }

  /** The one row of a report without models: its own cost, tokens and names. */
  ghost predicate RollupRow(row: Row, r: Report, input: Input) {
    && SpeaksOf(row, r, input)
    && row.billedCost == r.costUSD && row.tokens.input == r.tokens.input && row.tokens.output == r.tokens.output
    && row.resourceId == r.namespace + "/" + r.name && row.resourceName == r.name
    && row.skuId == "" && row.subAccountId == r.namespace
    && row.chargeDescription == "Inference rollup for period " + r.period + " (no model breakdown)"
  }

  lemma ModelRowSpeaks(r: Report, m: ModelCost, input: Input)
    ensures RowOfModel(RowFromModel(r, m, ProfileOf(input, r), input.region, Best(r.cloud)), r, m, input)
  {
    if r.cloud != [] {
      var b := BestIsTheFirstMaximum(r.cloud);
    }
  }

  lemma RollupSpeaks(r: Report, input: Input)
    ensures RollupRow(RowFromTotals(r, ProfileOf(input, r), input.region, Best(r.cloud)), r, input)
  {
    if r.cloud != [] {
      var b := BestIsTheFirstMaximum(r.cloud);
    }
  }

  lemma {:induction false} RowInOrder(r: Report, models: seq<ModelCost>, profile: Profile, region: string, i: nat)
    requires i < |models|
    ensures |RowsInOrder(r, models, profile, region)| == |models|
    ensures RowsInOrder(r, models, profile, region)[i] == RowFromModel(r, models[i], profile, region, Best(r.cloud))
    decreases |models|
  {
    var n := |models| - 1;
    RowsBillTheirModels(r, models[..n], profile, region);
    if i < n {
      RowInOrder(r, models[..n], profile, region, i);
    }
  }

  /** Every model of a report has its row, or the report its rollup, and there are no other rows. */
  lemma RowsOfReport(r: Report, input: Input, rows: seq<Row>)
    requires ExpandsTo(r, ProfileOf(input, r), input.region, rows)
    ensures r.byModel == [] ==> |rows| == 1 && RollupRow(rows[0], r, input)
    ensures forall m :: m in r.byModel ==> exists row :: row in rows && RowOfModel(row, r, m, input)
    ensures r.byModel != [] ==> forall row :: row in rows ==> exists m :: m in r.byModel && RowOfModel(row, r, m, input)
  {
    var profile := ProfileOf(input, r);
    var models :| Arranged(models, r.byModel, ModelLeq) && rows == Expand(r, models, profile, input.region);
    SameLength(models, r.byModel);
    RowsBillTheirModels(r, models, profile, input.region);
    if r.byModel == [] {
      RollupSpeaks(r, input);
    } else {
      forall m | m in r.byModel ensures exists row :: row in rows && RowOfModel(row, r, m, input) {
        assert m in multiset(models);
        var i :| 0 <= i < |models| && models[i] == m;
        RowInOrder(r, models, profile, input.region, i);
        ModelRowSpeaks(r, m, input);
        assert rows[i] in rows;
      }
      forall row | row in rows ensures exists m :: m in r.byModel && RowOfModel(row, r, m, input) {
        var i :| 0 <= i < |rows| && rows[i] == row;
        RowInOrder(r, models, profile, input.region, i);
        ModelRowSpeaks(r, models[i], input);
        assert models[i] in multiset(r.byModel);
      }
    }
  }

  lemma {:induction false} PartInConcat(parts: seq<seq<Row>>, i: nat, row: Row)
    requires i < |parts| && row in parts[i]
    ensures row in Concat(parts)
    decreases |parts|
  {
    if i < |parts| - 1 {
      PartInConcat(parts[..|parts| - 1], i, row);
    }
  }

  lemma {:induction false} ConcatFromPart(parts: seq<seq<Row>>, row: Row) returns (i: nat)
    requires row in Concat(parts)
    ensures i < |parts| && row in parts[i]
  {
    i := |parts| - 1;
    if row !in parts[i] {
      i := ConcatFromPart(parts[..i], row);
    }
  }

  /** The export has a row for every model of every report, and a rollup for every report without models. */
  lemma ExportHasEveryModel(input: Input, rows: seq<Row>, r: Report)
    requires Exports(input, rows) && r in input.reports
    ensures forall m :: m in r.byModel ==> exists row :: row in rows && RowOfModel(row, r, m, input)
    ensures r.byModel == [] ==> exists row :: row in rows && RollupRow(row, r, input)
  {
    var order, parts :| Arranged(order, input.reports, ReportLeq) && PartsOf(parts, order, input) &&
        rows == Concat(parts);
    assert r in multiset(order);
    var i :| 0 <= i < |order| && order[i] == r;
    RowsOfReport(r, input, parts[i]);
    forall row | row in parts[i] ensures row in rows {
      PartInConcat(parts, i, row);
    }
    if r.byModel == [] {
      assert parts[i][0] in parts[i];
    }
  }

  /** And no other row: each is that of a model of a report, or the rollup of a report without models. */
  lemma ExportHasNothingElse(input: Input, rows: seq<Row>, row: Row) returns (r: Report)
    requires Exports(input, rows) && row in rows
    ensures r in input.reports
    ensures if r.byModel == [] then RollupRow(row, r, input)
            else exists m :: m in r.byModel && RowOfModel(row, r, m, input)
  {
    var order, parts :| Arranged(order, input.reports, ReportLeq) && PartsOf(parts, order, input) &&
        rows == Concat(parts);
    var i := ConcatFromPart(parts, row);
    r := order[i];
    assert r in multiset(input.reports);
    RowsOfReport(r, input, parts[i]);
  }

  /** The rows of a report come by namespace, and by model within a namespace. */
  lemma RowsComeSorted(r: Report, profile: Profile, region: string, rows: seq<Row>, i: nat, j: nat)
    requires ExpandsTo(r, profile, region, rows) && i < j < |rows|
    ensures Less(rows[i].subAccountId, rows[j].subAccountId, CharCode)
            || (rows[i].subAccountId == rows[j].subAccountId && StringLeq(rows[i].skuId, rows[j].skuId))
  {
    var models :| Arranged(models, r.byModel, ModelLeq) && rows == Expand(r, models, profile, region);
    RowsBillTheirModels(r, models, profile, region);
    RowInOrder(r, models, profile, region, i);
    RowInOrder(r, models, profile, region, j);
    assert ModelLeq(models[i], models[j]);
  }

  /** Where the parts of a concatenation begin, and where the last one ends. */
  ghost predicate Cuts(cuts: seq<nat>, parts: seq<seq<Row>>, rows: seq<Row>) {
    && |cuts| == |parts| + 1 && cuts[0] == 0 && cuts[|parts|] == |rows|
    && forall i :: 0 <= i < |parts| ==> Block(rows, cuts, i, parts[i])
  }

  /** The part of a list between a cut and the next. */
  predicate Block(rows: seq<Row>, cuts: seq<nat>, i: nat, part: seq<Row>) {
    i + 1 < |cuts| && cuts[i] <= cuts[i + 1] <= |rows| && rows[cuts[i]..cuts[i + 1]] == part
  }

  lemma {:induction false} ConcatCuts(parts: seq<seq<Row>>) returns (cuts: seq<nat>)
    ensures Cuts(cuts, parts, Concat(parts))
  {
    if parts == [] {
      cuts := [0];
    } else {
      var n := |parts| - 1;
      var before := ConcatCuts(parts[..n]);
      cuts := before + [|Concat(parts)|];
      OneMoreCut(before, parts, Concat(parts[..n]));
    }
  }

  lemma OneMoreCut(before: seq<nat>, parts: seq<seq<Row>>, rows: seq<Row>)
    requires parts != [] && Cuts(before, parts[..|parts| - 1], rows)
    ensures Cuts(before + [|rows + parts[|parts| - 1]|], parts, rows + parts[|parts| - 1])
  {
    var n := |parts| - 1;
    var cuts, more := before + [|rows + parts[n]|], rows + parts[n];
    forall i | 0 <= i < |parts| ensures Block(more, cuts, i, parts[i]) {
      if i < n {
        assert parts[..n][i] == parts[i] && Block(rows, before, i, parts[..n][i]);
        assert more[before[i]..before[i + 1]] == rows[before[i]..before[i + 1]];
      }
    }
  }

  /**
    An export is the reports' rows one report after the other, the reports by namespace, and by name within a
    namespace.
   */
  lemma ReportsComeSorted(input: Input, rows: seq<Row>)
    returns (order: seq<Report>, cuts: seq<nat>, parts: seq<seq<Row>>)
    requires Exports(input, rows)
    ensures multiset(order) == multiset(input.reports) && |parts| == |order|
    ensures Cuts(cuts, parts, rows)
    ensures forall i :: 0 <= i < |order| ==> ExpandsTo(order[i], ProfileOf(input, order[i]), input.region, parts[i])
    ensures forall i, j :: 0 <= i < j < |order| ==>
              || Less(order[i].namespace, order[j].namespace, CharCode)
              || (order[i].namespace == order[j].namespace && StringLeq(order[i].name, order[j].name))
  {
    order, parts :| Arranged(order, input.reports, ReportLeq) && PartsOf(parts, order, input) && rows == Concat(parts);
    cuts := ConcatCuts(parts);
    forall i, j | 0 <= i < j < |order|
      ensures || Less(order[i].namespace, order[j].namespace, CharCode)
              || (order[i].namespace == order[j].namespace && StringLeq(order[i].name, order[j].name))
    {
      assert ReportLeq(order[i], order[j]);
    }
  }

  // ----- completeness -----

  /** One row for each model of a report, one rollup row if it has none. */
  function RowsOf(r: Report): real {
    Max(1, |r.byModel|) as real
  }

  function BillOf(row: Row): real {
    row.billedCost
  }

  /** What the rows bill. */
  function Billed(rows: seq<Row>): real {
    Total(rows, BillOf)
  }

  /** A report expands into one row for each model, or one rollup row; together they bill what the report lists. */
  lemma ExpansionIsComplete(r: Report, profile: Profile, region: string, rows: seq<Row>)
    requires ExpandsTo(r, profile, region, rows)
    ensures |rows| == Max(1, |r.byModel|)
    ensures Billed(rows) == if r.byModel == [] then r.costUSD else TotalCost(r.byModel)
  {
    var models :| Arranged(models, r.byModel, ModelLeq) && rows == Expand(r, models, profile, region);
    SameLength(models, r.byModel);
    TotalOfBag(models, r.byModel, CostOf);
    RowsBillTheirModels(r, models, profile, region);
    if models == [] {
      assert rows[..0] == [];
    }
  }

  lemma {:induction false} RowsBillTheirModels(r: Report, models: seq<ModelCost>, profile: Profile, region: string)
    ensures |RowsInOrder(r, models, profile, region)| == |models|
    ensures Billed(RowsInOrder(r, models, profile, region)) == TotalCost(models)
  {
    if models != [] {
      var n := |models| - 1;
      RowsBillTheirModels(r, models[..n], profile, region);
      var rows := RowsInOrder(r, models, profile, region);
      assert rows[..|rows| - 1] == RowsInOrder(r, models[..n], profile, region);
    }
  }

  lemma {:induction false} PartsAreComplete(input: Input, order: seq<Report>, parts: seq<seq<Row>>)
    requires PartsOf(parts, order, input)
    ensures |Concat(parts)| as real == Total(order, RowsOf)
    decreases |parts|
  {
    if parts != [] {
      var n := |parts| - 1;
      LastPart(input, order, parts);
      PartsAreComplete(input, order[..n], parts[..n]);
    }
  }

  lemma LastPart(input: Input, order: seq<Report>, parts: seq<seq<Row>>)
    requires PartsOf(parts, order, input) && parts != []
    ensures PartsOf(parts[..|parts| - 1], order[..|parts| - 1], input)
    ensures |parts[|parts| - 1]| as real == RowsOf(order[|parts| - 1])
  {
    var n := |parts| - 1;
    ExpansionIsComplete(order[n], ProfileOf(input, order[n]), input.region, parts[n]);
  }

  /** The export has exactly one row for each model of each report, and one for each report without models. */
  lemma ExportIsComplete(input: Input, rows: seq<Row>)
    requires Exports(input, rows)
    ensures |rows| as real == Total(input.reports, RowsOf)
  {
    var order, parts :| Arranged(order, input.reports, ReportLeq) && PartsOf(parts, order, input) &&
        rows == Concat(parts);
    PartsAreComplete(input, order, parts);
    TotalOfBag(order, input.reports, RowsOf);
  }

  /**
    A report's rows bill the cost of its period exactly when it has no model rows, or some tokens, or no
    cost: a report whose models have served nothing bills nothing, whatever the hardware cost.
   */
  lemma ReportBillsItsPeriod(r: Report, usage: Usage, profile: Profile, region: string, rows: seq<Row>)
    requires Lists(r.byModel, usage, r.costUSD, r.tokens.Total()) && RowKeys(r.byModel) == usage.Keys
    requires r.tokens == Sum(usage, usage.Keys) && ExpandsTo(r, profile, region, rows)
    ensures Billed(rows) == r.costUSD <==> r.byModel == [] || r.tokens.Total() > 0 || r.costUSD == 0.0
  {
    ExpansionIsComplete(r, profile, region, rows);
    ModelCostsConserve(r.byModel, usage, r.costUSD, r.tokens.Total());
  }
}
