/**
  The cloud price catalogue: flattening, validation, and the case-folded lookups of the break-even
  analysis that rely on it.
 */
module Pricing {
  import opened Common
  import opened Calculator

  datatype ModelPricing = ModelPricing(model: string, inputPerMillion: real, outputPerMillion: real)

  datatype ProviderPricing = ProviderPricing(provider: string, models: seq<ModelPricing>)

  /** What `Validate` can find wrong. */
  datatype Problem = NoProviders | EmptyProvider | EmptyModel(provider: string)
                   | DuplicateEntry(provider: string, model: string) | NegativePricing(provider: string, model: string)

  /** Lower-casing letter by letter, in whatever alphabet; it leaves the separator alone. */
  type CaseMap = f: char -> char | f('/') == '/' witness c => c

  function ToLower(lower: CaseMap, s: string): (t: string)
    ensures |t| == |s| && forall i :: 0 <= i < |s| ==> t[i] == lower(s[i])
  {
    seq(|s|, i requires 0 <= i < |s| => lower(s[i]))
  }

  /** The key validation uses folds the joined name, the key lookups use joins the folded names. */
  lemma LowerJoins(lower: CaseMap, provider: string, model: string)
    ensures ToLower(lower, provider + "/" + model) == Fold(lower, provider, model)
  {
  }

  function Fold(lower: CaseMap, provider: string, model: string): string {
    ToLower(lower, provider) + "/" + ToLower(lower, model)
  }

  function Key(lower: CaseMap, p: CloudPricing): string {
    Fold(lower, p.provider, p.model)
  }

  function Row(provider: string, m: ModelPricing): CloudPricing {
    CloudPricing(provider, m.model, m.inputPerMillion, m.outputPerMillion)
  }

  // ----- flattening -----

  /** The first m models of a provider. */
  function ModelRows(p: ProviderPricing, m: nat): seq<CloudPricing>
    requires m <= |p.models|
  {
    if m == 0 then [] else ModelRows(p, m - 1) + [Row(p.provider, p.models[m - 1])]
  }

  function Rows(catalog: seq<ProviderPricing>): seq<CloudPricing> {
    if catalog == [] then []
    else Rows(catalog[..|catalog| - 1]) + ModelRows(catalog[|catalog| - 1], |catalog[|catalog| - 1].models|)
  }

  method Flatten(catalog: seq<ProviderPricing>) returns (out: seq<CloudPricing>)
    ensures out == Rows(catalog)
  {
    out := [];
    for i := 0 to |catalog|
      invariant out == Rows(catalog[..i])
    {
      var p := catalog[i];
      assert catalog[..i + 1][..i] == catalog[..i];
      for j := 0 to |p.models|
        invariant out == Rows(catalog[..i]) + ModelRows(p, j)
      {
        var m := p.models[j];
        out := out + [CloudPricing(p.provider, m.model, m.inputPerMillion, m.outputPerMillion)];
      }
    }
    assert catalog[..|catalog|] == catalog;
  }

  /** The flat list holds one row for each model of each provider, at its own prices, and no other row. */
  lemma RowsAreTheModels(catalog: seq<ProviderPricing>, row: CloudPricing)
    ensures row in Rows(catalog)
       <==> exists p, m :: p in catalog && m in p.models && row.provider == p.provider && row.model == m.model
                           && row.inputPerMillion == m.inputPerMillion && row.outputPerMillion == m.outputPerMillion
  {
    RowsComeFromModels(catalog, row);
    if p, m :| p in catalog && m in p.models && row.provider == p.provider && row.model == m.model
               && row.inputPerMillion == m.inputPerMillion && row.outputPerMillion == m.outputPerMillion {
      assert row == Row(p.provider, m);
    }
  }

  lemma {:induction false} RowsComeFromModels(catalog: seq<ProviderPricing>, row: CloudPricing)
    ensures row in Rows(catalog) <==> exists p, m :: p in catalog && m in p.models && row == Row(p.provider, m)
  {
    if catalog != [] {
      var n := |catalog| - 1;
      RowsComeFromModels(catalog[..n], row);
      ModelRowsAreTheModels(catalog[n], |catalog[n].models|, row);
      assert catalog == catalog[..n] + [catalog[n]];
    }
  }

  lemma {:induction false} ModelRowsAreTheModels(p: ProviderPricing, k: nat, row: CloudPricing)
    requires k <= |p.models|
    ensures |ModelRows(p, k)| == k
    ensures row in ModelRows(p, k) <==> exists m :: m in p.models[..k] && row == Row(p.provider, m)
  {
    if k > 0 {
      ModelRowsAreTheModels(p, k - 1, row);
      assert p.models[..k] == p.models[..k - 1] + [p.models[k - 1]];
    }
  }

  function ModelCount(catalog: seq<ProviderPricing>): nat {
    if catalog == [] then 0 else ModelCount(catalog[..|catalog| - 1]) + |catalog[|catalog| - 1].models|
  }

  lemma {:induction false} OneRowPerModel(catalog: seq<ProviderPricing>)
    ensures |Rows(catalog)| == ModelCount(catalog)
  {
    if catalog != [] {
      var p := catalog[|catalog| - 1];
      OneRowPerModel(catalog[..|catalog| - 1]);
      ModelRowsAreTheModels(p, |p.models|, CloudPricing("", "", 0.0, 0.0));
    }
  }

  // ----- validation -----

  function Keys(lower: CaseMap, rows: seq<CloudPricing>): set<string> {
    if rows == [] then {} else Keys(lower, rows[..|rows| - 1]) + {Key(lower, rows[|rows| - 1])}
  }

  /** Every row has a name of its own once case is folded, and prices no comparison can turn upside down. */
  predicate CleanRows(lower: CaseMap, rows: seq<CloudPricing>) {
    rows == [] ||
    var n, row := |rows| - 1, rows[|rows| - 1];
    && CleanRows(lower, rows[..n])
    && row.model != "" && row.NonNegative()
    && Key(lower, row) !in Keys(lower, rows[..n])
  }

  predicate WellFormed(lower: CaseMap, catalog: seq<ProviderPricing>) {
    && catalog != []
    && (forall p :: p in catalog ==> p.provider != "")
    && CleanRows(lower, Rows(catalog))
  }

  lemma {:induction false} KeyAt(lower: CaseMap, rows: seq<CloudPricing>, i: nat)
    requires i < |rows|
    ensures Key(lower, rows[i]) in Keys(lower, rows)
  {
    if i < |rows| - 1 {
      KeyAt(lower, rows[..|rows| - 1], i);
    }
  }

  lemma {:induction false} CleanRow(lower: CaseMap, rows: seq<CloudPricing>, i: nat)
    requires CleanRows(lower, rows) && i < |rows|
    ensures rows[i].model != "" && rows[i].NonNegative()
    decreases |rows|
  {
    if i < |rows| - 1 {
      CleanRow(lower, rows[..|rows| - 1], i);
    }
  }

  lemma {:induction false} CleanPrefix(lower: CaseMap, rows: seq<CloudPricing>, n: nat)
    requires n <= |rows| && CleanRows(lower, rows)
    ensures CleanRows(lower, rows[..n])
    decreases |rows| - n
  {
    if n < |rows| {
      CleanPrefix(lower, rows, n + 1);
      assert rows[..n + 1][..n] == rows[..n];
    } else {
      assert rows[..n] == rows;
    }
  }

  /** The rows validation has seen when it looks at model j of provider i. */
  function Before(catalog: seq<ProviderPricing>, i: nat, j: nat): seq<CloudPricing>
    requires i < |catalog| && j <= |catalog[i].models|
  {
    Rows(catalog[..i]) + ModelRows(catalog[i], j)
  }

  lemma {:induction false} RowsPrefix(catalog: seq<ProviderPricing>, i: nat)
    requires i <= |catalog|
    ensures Rows(catalog[..i]) <= Rows(catalog)
    decreases |catalog| - i
  {
    if i < |catalog| {
      RowsPrefix(catalog, i + 1);
      assert catalog[..i + 1][..i] == catalog[..i];
    } else {
      assert catalog[..i] == catalog;
    }
  }

  lemma {:induction false} ModelRowsPrefix(p: ProviderPricing, j: nat)
    requires j <= |p.models|
    ensures ModelRows(p, j) <= ModelRows(p, |p.models|)
    decreases |p.models| - j
  {
    if j < |p.models| {
      ModelRowsPrefix(p, j + 1);
    }
  }

  /** What is seen on the way is part of the catalogue, so a problem on the way is a problem of the catalogue. */
  lemma SeenRowsAreClean(lower: CaseMap, catalog: seq<ProviderPricing>, i: nat, j: nat)
    requires i < |catalog| && j <= |catalog[i].models| && CleanRows(lower, Rows(catalog))
    ensures CleanRows(lower, Before(catalog, i, j))
  {
    var seen := Before(catalog, i, j);
    SeenIsPrefix(catalog, i, j);
    CleanPrefix(lower, Rows(catalog), |seen|);
    assert Rows(catalog)[..|seen|] == seen;
  }

  /** The problem is one the catalogue has. */
  ghost predicate Has(lower: CaseMap, catalog: seq<ProviderPricing>, problem: Problem) {
    match problem
    case NoProviders => catalog == []
    case EmptyProvider => exists p :: p in catalog && p.provider == ""
    case EmptyModel(provider) => exists p, m :: p in catalog && m in p.models && p.provider == provider && m.model == ""
    case DuplicateEntry(provider, model) =>
      exists i, j :: 0 <= i < j < |Rows(catalog)| && Key(lower, Rows(catalog)[i]) == Fold(lower, provider, model) ==
          Key(lower, Rows(catalog)[j])
    case NegativePricing(provider, model) =>
      exists p, m :: p in catalog && m in p.models && p.provider == provider && m.model == model
                     && (m.inputPerMillion < 0.0 || m.outputPerMillion < 0.0)
  }

  /** Accepts exactly the well-formed catalogues, and names a problem the others really have. */
  method Validate(lower: CaseMap, catalog: seq<ProviderPricing>) returns (problem: Option<Problem>)
    ensures problem == None <==> WellFormed(lower, catalog)
    ensures problem.Some? ==> Has(lower, catalog, problem.value)
  {
    if |catalog| == 0 {
      return Some(NoProviders);
    }
    var seen: set<string> := {};
    for i := 0 to |catalog|
      invariant forall k :: 0 <= k < i ==> catalog[k].provider != ""
      invariant CleanRows(lower, Rows(catalog[..i])) && seen == Keys(lower, Rows(catalog[..i]))
    {
      var p := catalog[i];
      if p.provider == "" {
        return Some(EmptyProvider);
      }
      assert Before(catalog, i, 0) == Rows(catalog[..i]);
      problem, seen := ValidateModels(lower, catalog, i, seen);
      if problem.Some? {
        return;
      }
      assert catalog[..i + 1][..i] == catalog[..i];
    }
    assert catalog[..|catalog|] == catalog;
    return None;
  }

  /** The inner loop of validation: the models of provider i. */
  method ValidateModels(lower: CaseMap, catalog: seq<ProviderPricing>, i: nat, before: set<string>)
    returns (problem: Option<Problem>, seen: set<string>)
    requires i < |catalog| && Accepted(lower, catalog, i, 0, before)
    ensures problem.None? ==> Accepted(lower, catalog, i, |catalog[i].models|, seen)
    ensures problem.Some? ==> Rejects(lower, catalog, problem.value)
  {
    problem, seen := None, before;
    var p := catalog[i];
    for j := 0 to |p.models|
      invariant Accepted(lower, catalog, i, j, seen)
    {
      var m := p.models[j];
      if m.model == "" {
        EmptyIsRejected(lower, catalog, i, j, seen);
        return Some(EmptyModel(p.provider)), seen;
      }
      var key := ToLower(lower, p.provider + "/" + m.model);
      LowerJoins(lower, p.provider, m.model);
      if key in seen {
        DuplicateIsRejected(lower, catalog, i, j, seen);
        return Some(DuplicateEntry(p.provider, m.model)), seen;
      }
      if m.inputPerMillion < 0.0 || m.outputPerMillion < 0.0 {
        NegativeIsRejected(lower, catalog, i, j, seen);
        return Some(NegativePricing(p.provider, m.model)), seen + {key};
      }
      NextRow(lower, catalog, i, j, seen);
      seen := seen + {key};
    }
  }

  /** Nothing is wrong with the rows before model j of provider i, and `seen` holds their keys. */
  predicate Accepted(lower: CaseMap, catalog: seq<ProviderPricing>, i: nat, j: nat, seen: set<string>)
    requires i < |catalog| && j <= |catalog[i].models|
  {
    CleanRows(lower, Before(catalog, i, j)) && seen == Keys(lower, Before(catalog, i, j))
  }

  ghost predicate Rejects(lower: CaseMap, catalog: seq<ProviderPricing>, problem: Problem) {
    !CleanRows(lower, Rows(catalog)) && Has(lower, catalog, problem)
  }

  /** The next row keeps the rows clean exactly when nothing is wrong with it. */
  lemma NextRow(lower: CaseMap, catalog: seq<ProviderPricing>, i: nat, j: nat, seen: set<string>)
    requires i < |catalog| && j < |catalog[i].models| && Accepted(lower, catalog, i, j, seen)
    ensures Keys(lower, Before(catalog, i, j + 1))
         == seen + {Fold(lower, catalog[i].provider, catalog[i].models[j].model)}
    ensures CleanRows(lower, Before(catalog, i, j + 1))
       <==> catalog[i].models[j].model != "" && Row(catalog[i].provider, catalog[i].models[j]).NonNegative()
            && Fold(lower, catalog[i].provider, catalog[i].models[j].model) !in seen
  {
    var row := Row(catalog[i].provider, catalog[i].models[j]);
    assert Before(catalog, i, j + 1) == Before(catalog, i, j) + [row];
    OneRow(lower, Before(catalog, i, j), row);
  }

  lemma EmptyIsRejected(lower: CaseMap, catalog: seq<ProviderPricing>, i: nat, j: nat, seen: set<string>)
    requires i < |catalog| && j < |catalog[i].models| && Accepted(lower, catalog, i, j, seen)
    requires catalog[i].models[j].model == ""
    ensures Rejects(lower, catalog, EmptyModel(catalog[i].provider))
  {
    NextRow(lower, catalog, i, j, seen);
    NotClean(lower, catalog, i, j);
    assert catalog[i] in catalog && catalog[i].models[j] in catalog[i].models;
  }

  lemma DuplicateIsRejected(lower: CaseMap, catalog: seq<ProviderPricing>, i: nat, j: nat, seen: set<string>)
    requires i < |catalog| && j < |catalog[i].models| && Accepted(lower, catalog, i, j, seen)
    requires Fold(lower, catalog[i].provider, catalog[i].models[j].model) in seen
    ensures Rejects(lower, catalog, DuplicateEntry(catalog[i].provider, catalog[i].models[j].model))
  {
    NextRow(lower, catalog, i, j, seen);
    NotClean(lower, catalog, i, j);
    SeenTwice(lower, catalog, i, j);
  }

  lemma NegativeIsRejected(lower: CaseMap, catalog: seq<ProviderPricing>, i: nat, j: nat, seen: set<string>)
    requires i < |catalog| && j < |catalog[i].models| && Accepted(lower, catalog, i, j, seen)
    requires !Row(catalog[i].provider, catalog[i].models[j]).NonNegative()
    ensures Rejects(lower, catalog, NegativePricing(catalog[i].provider, catalog[i].models[j].model))
  {
    NextRow(lower, catalog, i, j, seen);
    NotClean(lower, catalog, i, j);
    assert catalog[i] in catalog && catalog[i].models[j] in catalog[i].models;
  }

  lemma OneRow(lower: CaseMap, rows: seq<CloudPricing>, row: CloudPricing)
    ensures Keys(lower, rows + [row]) == Keys(lower, rows) + {Key(lower, row)}
    ensures CleanRows(lower, rows + [row])
       <==> CleanRows(lower, rows) && row.model != "" && row.NonNegative() && Key(lower, row) !in Keys(lower, rows)
  {
  }

  lemma NotClean(lower: CaseMap, catalog: seq<ProviderPricing>, i: nat, j: nat)
    requires i < |catalog| && j < |catalog[i].models| && !CleanRows(lower, Before(catalog, i, j + 1))
    ensures !CleanRows(lower, Rows(catalog))
  {
    if CleanRows(lower, Rows(catalog)) {
      SeenRowsAreClean(lower, catalog, i, j + 1);
    }
  }

  lemma SeenTwice(lower: CaseMap, catalog: seq<ProviderPricing>, i: nat, j: nat)
    requires i < |catalog| && j < |catalog[i].models|
    requires Fold(lower, catalog[i].provider, catalog[i].models[j].model) in Keys(lower, Before(catalog, i, j))
    ensures Has(lower, catalog, DuplicateEntry(catalog[i].provider, catalog[i].models[j].model))
  {
    var key := Fold(lower, catalog[i].provider, catalog[i].models[j].model);
    var seen, more, rows := Before(catalog, i, j), Before(catalog, i, j + 1), Rows(catalog);
    SeenIsPrefix(catalog, i, j + 1);
    KeyHasIndex(lower, seen, key);
    var a :| 0 <= a < |seen| && Key(lower, seen[a]) == key;
    assert more == seen + [Row(catalog[i].provider, catalog[i].models[j])];
    assert rows[a] == seen[a] && rows[|seen|] == more[|seen|];
  }

  lemma SeenIsPrefix(catalog: seq<ProviderPricing>, i: nat, j: nat)
    requires i < |catalog| && j <= |catalog[i].models|
    ensures Before(catalog, i, j) <= Rows(catalog)
  {
    RowsPrefix(catalog, i + 1);
    ModelRowsPrefix(catalog[i], j);
    assert catalog[..i + 1][..i] == catalog[..i];
    assert Before(catalog, i, j) <= Rows(catalog[..i + 1]) <= Rows(catalog);
  }

  lemma {:induction false} KeyHasIndex(lower: CaseMap, rows: seq<CloudPricing>, key: string)
    requires key in Keys(lower, rows)
    ensures exists i :: 0 <= i < |rows| && Key(lower, rows[i]) == key
  {
    var n := |rows| - 1;
    if key != Key(lower, rows[n]) {
      KeyHasIndex(lower, rows[..n], key);
      var i :| 0 <= i < n && Key(lower, rows[..n][i]) == key;
      assert Key(lower, rows[i]) == key;
    }
  }

  // ----- lookup -----

  type Index = map<string, CloudPricing>

  /** The lookup table of a price list: every row under its folded name, a later row replacing an earlier one. */
  function IndexOf(lower: CaseMap, rows: seq<CloudPricing>): (byKey: Index)
    ensures byKey.Keys == Keys(lower, rows)
  {
    if rows == [] then map[]
    else IndexOf(lower, rows[..|rows| - 1])[Key(lower, rows[|rows| - 1]) := rows[|rows| - 1]]
  }

  method BuildIndex(lower: CaseMap, rows: seq<CloudPricing>) returns (byKey: Index)
    ensures byKey == IndexOf(lower, rows)
  {
    byKey := map[];
    for i := 0 to |rows|
      invariant byKey == IndexOf(lower, rows[..i])
    {
      assert rows[..i + 1][..i] == rows[..i];
      byKey := byKey[ToLower(lower, rows[i].provider) + "/" + ToLower(lower, rows[i].model) := rows[i]];
    }
    assert rows[..|rows|] == rows;
  }

  predicate Resolves(lower: CaseMap, byKey: Index, row: CloudPricing) {
    Key(lower, row) in byKey && byKey[Key(lower, row)] == row
  }

  /** A name finds the last row that has it. */
  lemma {:induction false} LastRowWins(lower: CaseMap, rows: seq<CloudPricing>, i: nat)
    requires i < |rows| && forall j :: i < j < |rows| ==> !SameName(lower, rows[i], rows[j])
    ensures Resolves(lower, IndexOf(lower, rows), rows[i])
    decreases |rows|
  {
    var n := |rows| - 1;
    if i < n {
      assert forall j :: i < j < n ==> rows[..n][j] == rows[j];
      LastRowWins(lower, rows[..n], i);
      assert !SameName(lower, rows[i], rows[n]);
    }
  }

  /** Over clean rows no row replaces another. */
  lemma EveryRowResolves(lower: CaseMap, rows: seq<CloudPricing>, i: nat)
    requires CleanRows(lower, rows) && i < |rows|
    ensures Resolves(lower, IndexOf(lower, rows), rows[i])
  {
    CleanRowsIff(lower, rows);
    LastRowWins(lower, rows, i);
  }

  /** Over an accepted catalogue a name finds the one row that folds to it, or finds nothing. */
  lemma LookupIsUnambiguous(lower: CaseMap, catalog: seq<ProviderPricing>, key: string)
    requires WellFormed(lower, catalog)
    ensures key in IndexOf(lower, Rows(catalog)) <==> exists row :: row in Rows(catalog) && Key(lower, row) == key
    ensures forall row :: row in Rows(catalog) && Key(lower, row) == key ==>
                            Resolves(lower, IndexOf(lower, Rows(catalog)), row)
    ensures |IndexOf(lower, Rows(catalog))| == ModelCount(catalog)
  {
    var rows := Rows(catalog);
    if key in IndexOf(lower, rows) {
      KeyHasIndex(lower, rows, key);
      var i :| 0 <= i < |rows| && Key(lower, rows[i]) == key;
      assert rows[i] in rows;
    }
    forall row | row in rows && Key(lower, row) == key ensures Resolves(lower, IndexOf(lower, rows), row) {
      var i :| 0 <= i < |rows| && rows[i] == row;
      EveryRowResolves(lower, rows, i);
    }
    KeysAreAsMany(lower, rows);
    OneRowPerModel(catalog);
    assert |IndexOf(lower, rows).Keys| == |IndexOf(lower, rows)|;
  }

  lemma {:induction false} KeysAreAsMany(lower: CaseMap, rows: seq<CloudPricing>)
    requires CleanRows(lower, rows)
    ensures |Keys(lower, rows)| == |rows|
  {
    if rows != [] {
      KeysAreAsMany(lower, rows[..|rows| - 1]);
    }
  }

  /**
    What validation accepts: at least one provider; providers and models all named; no negative price; and no
    two models anywhere with the same provider and model once case is folded.
   */
  lemma AcceptedIff(lower: CaseMap, catalog: seq<ProviderPricing>)
    ensures WellFormed(lower, catalog)
       <==> && catalog != [] && (forall p :: p in catalog ==> p.provider != "")
            && (forall p, m :: p in catalog && m in p.models ==>
                  m.model != "" && m.inputPerMillion >= 0.0 && m.outputPerMillion >= 0.0)
            && (forall i, j :: 0 <= i < j < |Rows(catalog)| ==> !SameName(lower, Rows(catalog)[i], Rows(catalog)[j]))
  {
    var rows := Rows(catalog);
    CleanRowsIff(lower, rows);
    if forall i :: 0 <= i < |rows| ==> Priced(rows[i]) {
      forall p, m | p in catalog && m in p.models ensures Priced(Row(p.provider, m)) {
        RowsAreTheModels(catalog, Row(p.provider, m));
      }
    }
    forall i | 0 <= i < |rows|
      ensures exists p, m :: p in catalog && m in p.models && rows[i].model == m.model
                             && rows[i].inputPerMillion == m.inputPerMillion
                             && rows[i].outputPerMillion == m.outputPerMillion
    {
      assert rows[i] in rows;
      RowsAreTheModels(catalog, rows[i]);
    }
  }

  predicate Priced(row: CloudPricing) {
    row.model != "" && row.inputPerMillion >= 0.0 && row.outputPerMillion >= 0.0
  }

  predicate SameName(lower: CaseMap, a: CloudPricing, b: CloudPricing) {
    ToLower(lower, a.provider) + "/" + ToLower(lower, a.model)
    == ToLower(lower, b.provider) + "/" + ToLower(lower, b.model)
  }

  lemma {:induction false} CleanRowsIff(lower: CaseMap, rows: seq<CloudPricing>)
    ensures CleanRows(lower, rows)
       <==> && (forall i :: 0 <= i < |rows| ==> Priced(rows[i]))
            && (forall i, j :: 0 <= i < j < |rows| ==> !SameName(lower, rows[i], rows[j]))
  {
    if rows != [] {
      var n := |rows| - 1;
      CleanRowsIff(lower, rows[..n]);
      forall i | 0 <= i < n ensures Key(lower, rows[i]) in Keys(lower, rows[..n]) {
        KeyAt(lower, rows[..n], i);
      }
      if Key(lower, rows[n]) in Keys(lower, rows[..n]) {
        KeyHasIndex(lower, rows[..n], Key(lower, rows[n]));
        var i :| 0 <= i < n && Key(lower, rows[..n][i]) == Key(lower, rows[n]);
        assert SameName(lower, rows[i], rows[n]);
      }
    }
  }
}
