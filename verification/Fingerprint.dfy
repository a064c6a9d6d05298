/**
  The write-suppression fingerprint of a usage report: every breakdown row is rendered as a string, both
  sides are sorted, and the lists are compared.  It is meant to decide equality up to order.
 */
module Fingerprint {
  import opened Order

  /** What a model row contributes: `namespace/model:input+output`. */
  datatype ModelRow = ModelRow(namespace: string, model: string, input: int, output: int) {
    function Render(): string {
      namespace + "/" + model + ":" + Dec(input) + "+" + Dec(output)
    }
  }

  /** What a namespace row contributes: `namespace:count`. */
  datatype NamespaceRow = NamespaceRow(namespace: string, count: int) {
    function Render(): string {
      namespace + ":" + Dec(count)
    }
  }

  // ----- decimals -----

  function Digit(d: nat): char
    requires d < 10
  {
    '0' + d as char
  }

  function DecNat(n: nat): (s: string)
    ensures s != [] && forall c :: c in s ==> '0' <= c <= '9'
  {
    if n < 10 then [Digit(n)] else DecNat(n / 10) + [Digit(n % 10)]
  }

  /** Go's `%d`. */
  function Dec(n: int): (s: string)
    ensures s != [] && forall c :: c in s ==> c == '-' || '0' <= c <= '9'
  {
    if n < 0 then "-" + DecNat(-n) else DecNat(n)
  }

  lemma {:induction false} DecNatInjective(m: nat, n: nat)
    requires DecNat(m) == DecNat(n)
    ensures m == n
  {
    var s, t := DecNat(m), DecNat(n);
    assert s[|s| - 1] == t[|t| - 1] && s[..|s| - 1] == t[..|t| - 1];
    if m >= 10 && n >= 10 {
      assert s[..|s| - 1] == DecNat(m / 10) && t[..|t| - 1] == DecNat(n / 10);
      DecNatInjective(m / 10, n / 10);
    }
  }

  lemma SignShows(n: int)
    ensures Dec(n)[0] == '-' <==> n < 0
  {
    if n >= 0 {
      assert Dec(n)[0] in DecNat(n);
    }
  }

  lemma DecInjective(m: int, n: int)
    requires Dec(m) == Dec(n)
    ensures m == n
  {
    assert Dec(m)[0] == Dec(n)[0];
    if m < 0 && n < 0 {
      assert Dec(m)[1..] == DecNat(-m) && Dec(n)[1..] == DecNat(-n);
      DecNatInjective(-m, -n);
    } else if m >= 0 && n >= 0 {
      DecNatInjective(m, n);
    } else {
      SignShows(m);
      SignShows(n);
      assert false;
    }
  }

  // ----- separators -----

  /** A separator that one half of neither string contains splits a text in one way only. */
  lemma SplitAtFirst(a: string, b: string, a': string, b': string, sep: char)
    requires a + [sep] + b == a' + [sep] + b' && sep !in a && sep !in a'
    ensures a == a' && b == b'
  {
    var text := a + [sep] + b;
    assert text == a' + [sep] + b';
    FirstIsFirst(a, b, a', b', sep);
    FirstIsFirst(a', b', a, b, sep);
    assert a == text[..|a|] && a' == text[..|a'|];
    assert b == text[|a| + 1..] && b' == text[|a'| + 1..];
  }

  lemma FirstIsFirst(a: string, b: string, a': string, b': string, sep: char)
    requires a + [sep] + b == a' + [sep] + b' && sep !in a'
    ensures |a'| <= |a|
  {
    var text := a + [sep] + b;
    assert text == a' + [sep] + b' && text[|a|] == sep;
    assert forall k :: 0 <= k < |a'| ==> text[k] == a'[k];
  }

  lemma SplitAtLast(a: string, b: string, a': string, b': string, sep: char)
    requires a + [sep] + b == a' + [sep] + b' && sep !in b && sep !in b'
    ensures a == a' && b == b'
  {
    var text := a + [sep] + b;
    assert text == a' + [sep] + b';
    LastIsLast(a, b, a', b', sep);
    LastIsLast(a', b', a, b, sep);
    assert a == text[..|a|] && a' == text[..|a'|];
    assert b == text[|a| + 1..] && b' == text[|a'| + 1..];
  }

  lemma LastIsLast(a: string, b: string, a': string, b': string, sep: char)
    requires a + [sep] + b == a' + [sep] + b' && sep !in b'
    ensures |a| <= |a'|
  {
    var text := a + [sep] + b;
    assert text == a' + [sep] + b' && text[|a|] == sep;
    assert forall k :: |a'| < k < |text| ==> text[k] == b'[k - |a'| - 1];
  }

  lemma NamespaceRowsRenderApart(r: NamespaceRow, s: NamespaceRow)
    requires r.Render() == s.Render()
    ensures r == s
  {
    SplitAtLast(r.namespace, Dec(r.count), s.namespace, Dec(s.count), ':');
    DecInjective(r.count, s.count);
  }

  /** The counts and the path `namespace/model` can always be read back. */
  lemma RenderedParts(r: ModelRow, s: ModelRow)
    requires r.Render() == s.Render()
    ensures r.input == s.input && r.output == s.output
    ensures r.namespace + "/" + r.model == s.namespace + "/" + s.model
  {
    var p, q := r.namespace + "/" + r.model, s.namespace + "/" + s.model;
    SplitAtLast(p + ":" + Dec(r.input), Dec(r.output), q + ":" + Dec(s.input), Dec(s.output), '+');
    SplitAtLast(p, Dec(r.input), q, Dec(s.input), ':');
    DecInjective(r.input, s.input);
    DecInjective(r.output, s.output);
  }

  /** Namespaces without a slash, which is what Kubernetes allows, keep the rows apart. */
  lemma ModelRowsRenderApart(r: ModelRow, s: ModelRow)
    requires r.Render() == s.Render() && '/' !in r.namespace && '/' !in s.namespace
    ensures r == s
  {
    RenderedParts(r, s);
    SplitAtFirst(r.namespace, r.model, s.namespace, s.model, '/');
  }

  ghost predicate Ambiguous(r: ModelRow) {
    exists s: ModelRow :: s != r && s.Render() == r.Render()
  }

  /** A row's string identifies it exactly when neither of its names contains a slash. */
  lemma RowIsAmbiguousIffSlashed(r: ModelRow)
    ensures Ambiguous(r) <==> '/' in r.namespace || '/' in r.model
  {
    if '/' in r.namespace {
      var i :| 0 <= i < |r.namespace| && r.namespace[i] == '/';
      var head, tail := r.namespace[..i], r.namespace[i + 1..];
      assert r.namespace == head + "/" + tail;
      SamePath(r, ModelRow(head, tail + "/" + r.model, r.input, r.output));
    } else if '/' in r.model {
      var i :| 0 <= i < |r.model| && r.model[i] == '/';
      var head, tail := r.model[..i], r.model[i + 1..];
      assert r.model == head + "/" + tail;
      SamePath(r, ModelRow(r.namespace + "/" + head, tail, r.input, r.output));
    } else {
      forall s: ModelRow | s.Render() == r.Render() ensures s == r {
        OneSlash(r, s);
      }
    }
  }

  lemma SamePath(r: ModelRow, s: ModelRow)
    requires r.namespace + "/" + r.model == s.namespace + "/" + s.model && r.namespace != s.namespace
    requires r.input == s.input && r.output == s.output
    ensures Ambiguous(r)
  {
    assert s.Render() == r.Render();
  }

  lemma OneSlash(r: ModelRow, s: ModelRow)
    requires r.Render() == s.Render() && '/' !in r.namespace && '/' !in r.model
    ensures r == s
  {
    RenderedParts(r, s);
    var path := r.namespace + "/" + r.model;
    assert path == s.namespace + "/" + s.model;
    assert path[|s.namespace|] == '/';
    assert forall k :: 0 <= k < |path| && k != |r.namespace| ==> path[k] in r.namespace || path[k] in r.model;
    assert |r.namespace| == |s.namespace|;
    assert r.namespace == path[..|r.namespace|] && s.namespace == path[..|s.namespace|];
    assert r.model == path[|r.namespace| + 1..] && s.model == path[|s.namespace| + 1..];
  }

  // ----- comparing the rendered lists -----

  /** Sorts two rendered lists and compares them place by place; the caller has compared their lengths. */
  method SameStrings(xs: seq<string>, ys: seq<string>) returns (same: bool)
    requires |xs| == |ys|
    ensures same <==> multiset(xs) == multiset(ys)
  {
    StringLeqIsAnOrder();
    var ps := Sort(xs, StringLeq);
    var qs := Sort(ys, StringLeq);
    SameLength(ps, xs);
    SameLength(qs, ys);
    for i := 0 to |ps|
      invariant ps[..i] == qs[..i]
    {
      if ps[i] != qs[i] {
        if multiset(xs) == multiset(ys) {
          ArrangementUnique(ps, qs, StringLeq);
        }
        return false;
      }
    }
    assert ps == ps[..|ps|] && qs == qs[..|ps|];
    return true;
  }

  function RenderModel(r: ModelRow): string {
    r.Render()
  }

  function RenderNamespace(r: NamespaceRow): string {
    r.Render()
  }

  ghost predicate NoSlash(rows: seq<ModelRow>) {
    forall r :: r in rows ==> '/' !in r.namespace
  }

  /** Decides whether two breakdowns list the same model rows, whatever their order. */
  method ModelBreakdownsEqual(a: seq<ModelRow>, b: seq<ModelRow>) returns (same: bool)
    requires |a| == |b|
    ensures multiset(a) == multiset(b) ==> same
    ensures NoSlash(a) && NoSlash(b) && same ==> multiset(a) == multiset(b)
    ensures same <==> multiset(Image(a, RenderModel)) == multiset(Image(b, RenderModel))
  {
    var xs := RenderAll(a, RenderModel);
    var ys := RenderAll(b, RenderModel);
    same := SameStrings(xs, ys);
    ModelListsCompare(a, b);
  }

  method RenderAll<T>(rows: seq<T>, f: T -> string) returns (out: seq<string>)
    ensures out == Image(rows, f)
  {
    out := [];
    for i := 0 to |rows|
      invariant out == Image(rows[..i], f)
    {
      assert rows[..i + 1][..i] == rows[..i];
      out := out + [f(rows[i])];
    }
    assert rows[..|rows|] == rows;
  }

  lemma ModelListsCompare(a: seq<ModelRow>, b: seq<ModelRow>)
    ensures multiset(a) == multiset(b) ==> multiset(Image(a, RenderModel)) == multiset(Image(b, RenderModel))
    ensures NoSlash(a) && NoSlash(b) ==>
              (multiset(Image(a, RenderModel)) == multiset(Image(b, RenderModel)) ==> multiset(a) == multiset(b))
  {
    if multiset(a) == multiset(b) {
      ImagesOfEqualBags(a, b, RenderModel);
    }
    if NoSlash(a) && NoSlash(b) && multiset(Image(a, RenderModel)) == multiset(Image(b, RenderModel)) {
      forall r, s | r in a + b && s in a + b && RenderModel(r) == RenderModel(s) ensures r == s {
        ModelRowsRenderApart(r, s);
      }
      BagsOfEqualImages(a, b, RenderModel);
    }
  }

  predicate Slashed(r: ModelRow) {
    '/' in r.namespace || '/' in r.model
  }

  ghost predicate SameImages(a: seq<ModelRow>, b: seq<ModelRow>) {
    |a| == |b| && multiset(Image(a, RenderModel)) == multiset(Image(b, RenderModel))
  }

  /** Some other breakdown compares equal to this one. */
  ghost predicate Misread(a: seq<ModelRow>) {
    exists b :: SameImages(a, b) && multiset(a) != multiset(b)
  }

  /** The comparison can miss a change of a breakdown exactly when one of its rows has a slash in a name. */
  lemma MisreadIffSlashed(a: seq<ModelRow>)
    ensures Misread(a) <==> exists r :: r in a && Slashed(r)
  {
    if r :| r in a && Slashed(r) {
      SlashHidesAChange(a, r);
    } else {
      forall b | SameImages(a, b) ensures multiset(a) == multiset(b) {
        PlainNames(a, b);
      }
    }
  }

  lemma SlashHidesAChange(a: seq<ModelRow>, r: ModelRow)
    requires r in a && Slashed(r)
    ensures Misread(a)
  {
    RowIsAmbiguousIffSlashed(r);
    var s: ModelRow :| s != r && s.Render() == r.Render();
    var b := Swapped(a, r, s, RenderModel);
    assert SameImages(a, b);
  }

  lemma Swapped<T>(a: seq<T>, r: T, s: T, f: T -> string) returns (b: seq<T>)
    requires r in a && s != r && f(s) == f(r)
    ensures |b| == |a| && multiset(Image(a, f)) == multiset(Image(b, f)) && multiset(a) != multiset(b)
  {
    var rest := Without(a, r);
    WithoutBag(a, r);
    ImageWithout(a, r, f);
    b := rest + [s];
    assert b[..|rest|] == rest;
    assert multiset(b)[r] < multiset(a)[r];
  }

  lemma PlainNames(a: seq<ModelRow>, b: seq<ModelRow>)
    requires SameImages(a, b) && forall t :: t in a ==> !Slashed(t)
    ensures multiset(a) == multiset(b)
  {
    forall r, s | r in a + b && s in a + b && RenderModel(r) == RenderModel(s) ensures r == s {
      PlainRow(a, b, r, s);
    }
    BagsOfEqualImages(a, b, RenderModel);
  }

  lemma PlainRow(a: seq<ModelRow>, b: seq<ModelRow>, r: ModelRow, s: ModelRow)
    requires SameImages(a, b) && (forall t :: t in a ==> !Slashed(t))
    requires r in a + b && s in a + b && RenderModel(r) == RenderModel(s)
    ensures r == s
  {
    InImage(a, b, r);
    var t :| t in a && RenderModel(t) == RenderModel(r);
    RowIsAmbiguousIffSlashed(t);
    assert Ambiguous(t) || (r == t && s == t);
  }

  lemma InImage(a: seq<ModelRow>, b: seq<ModelRow>, r: ModelRow)
    requires SameImages(a, b) && r in a + b
    ensures exists t :: t in a && RenderModel(t) == RenderModel(r)
  {
    if r !in a {
      ImageAt(b, RenderModel);
      ImageAt(a, RenderModel);
      var i :| 0 <= i < |b| && b[i] == r;
      assert Image(b, RenderModel)[i] in multiset(Image(a, RenderModel));
      var j :| 0 <= j < |a| && Image(a, RenderModel)[j] == RenderModel(r);
      assert a[j] in a;
    }
  }

  method NamespaceBreakdownsEqual(a: seq<NamespaceRow>, b: seq<NamespaceRow>) returns (same: bool)
    requires |a| == |b|
    ensures same <==> multiset(a) == multiset(b)
  {
    var xs := RenderAll(a, RenderNamespace);
    var ys := RenderAll(b, RenderNamespace);
    same := SameStrings(xs, ys);
    NamespaceListsCompare(a, b);
  }

  lemma NamespaceListsCompare(a: seq<NamespaceRow>, b: seq<NamespaceRow>)
    ensures multiset(Image(a, RenderNamespace)) == multiset(Image(b, RenderNamespace)) <==> multiset(a) == multiset(b)
  {
    if multiset(a) == multiset(b) {
      ImagesOfEqualBags(a, b, RenderNamespace);
    } else if multiset(Image(a, RenderNamespace)) == multiset(Image(b, RenderNamespace)) {
      forall r, s | r in a + b && s in a + b && RenderNamespace(r) == RenderNamespace(s) ensures r == s {
        NamespaceRowsRenderApart(r, s);
      }
      BagsOfEqualImages(a, b, RenderNamespace);
    }
  }
}
