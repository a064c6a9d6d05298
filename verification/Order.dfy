/**
  Orders and sorting, as the code's library calls use them: byte-wise string comparison, and a sort
  that promises a sorted permutation and nothing about equal elements.
 */
module Order {

  /** Lexicographic order on sequences whose elements are ranked by `code`. */
  predicate Less<T>(a: seq<T>, b: seq<T>, code: T -> int) {
    if b == [] then false
    else if a == [] then true
    else if code(a[0]) == code(b[0]) then Less(a[1..], b[1..], code)
    else code(a[0]) < code(b[0])
  }

  ghost predicate Injective<T(!new)>(code: T -> int) {
    forall x, y :: code(x) == code(y) ==> x == y
  }

  lemma {:induction false} LessIrreflexive<T>(a: seq<T>, code: T -> int)
    ensures !Less(a, a, code)
  {
    if a != [] {
      LessIrreflexive(a[1..], code);
    }
  }

  lemma {:induction false} LessTransitive<T>(a: seq<T>, b: seq<T>, c: seq<T>, code: T -> int)
    requires Less(a, b, code) && Less(b, c, code)
    ensures Less(a, c, code)
  {
    if a != [] && code(a[0]) == code(b[0]) == code(c[0]) {
      LessTransitive(a[1..], b[1..], c[1..], code);
    }
  }

  lemma {:induction false} LessTotal<T(!new)>(a: seq<T>, b: seq<T>, code: T -> int)
    requires Injective(code)
    ensures a == b || Less(a, b, code) || Less(b, a, code)
  {
    if a != [] && b != [] && code(a[0]) == code(b[0]) {
      LessTotal(a[1..], b[1..], code);
      assert a == [a[0]] + a[1..] && b == [b[0]] + b[1..];
    }
  }

  function CharCode(c: char): int {
    c as int
  }

  /** Go's `<=` on strings. */
  predicate StringLeq(a: string, b: string) {
    a == b || Less(a, b, CharCode)
  }

  /** A string comes before another when it is a proper beginning of it, or smaller at the first place they differ. */
  lemma {:induction false} DictionaryOrder(a: string, b: string)
    ensures Less(a, b, CharCode)
       <==> exists n :: 0 <= n <= |a| && n < |b| && a[..n] == b[..n] && (n == |a| || a[n] < b[n])
  {
    if a != [] && b != [] && a[0] == b[0] {
      DictionaryOrder(a[1..], b[1..]);
      if n :| 0 <= n <= |a[1..]| && n < |b[1..]| && a[1..][..n] == b[1..][..n]
              && (n == |a[1..]| || a[1..][n] < b[1..][n]) {
        assert a[..n + 1] == [a[0]] + a[1..][..n] && b[..n + 1] == [b[0]] + b[1..][..n];
      }
      if n :| 0 <= n <= |a| && n < |b| && a[..n] == b[..n] && (n == |a| || a[n] < b[n]) {
        assert n > 0 && a[1..][..n - 1] == a[..n][1..] && b[1..][..n - 1] == b[..n][1..];
      }
    } else if a == [] && b != [] {
      assert a[..0] == b[..0];
    } else if b != [] && a[0] < b[0] {
      assert a[..0] == b[..0];
    }
  }

  // ----- sorting -----

  ghost predicate SortedBy<T>(xs: seq<T>, leq: (T, T) -> bool) {
    forall i, j :: 0 <= i < j < |xs| ==> leq(xs[i], xs[j])
  }

  ghost predicate Comparable<T>(leq: (T, T) -> bool, x: T, y: T) {
    leq(x, y) || leq(y, x)
  }

  ghost predicate Chains<T>(leq: (T, T) -> bool, x: T, y: T, z: T) {
    leq(x, y) && leq(y, z) ==> leq(x, z)
  }

  ghost predicate TotalPreorder<T(!new)>(leq: (T, T) -> bool) {
    && (forall x, y :: Comparable(leq, x, y))
    && (forall x, y, z :: Chains(leq, x, y, z))
  }

  /** A sorted rearrangement; elements that compare equal may come out in any order. */
  ghost predicate Arranged<T>(ys: seq<T>, xs: seq<T>, leq: (T, T) -> bool) {
    SortedBy(ys, leq) && multiset(ys) == multiset(xs)
  }

  method Sort<T(!new)>(xs: seq<T>, leq: (T, T) -> bool) returns (ys: seq<T>)
    requires TotalPreorder(leq)
    ensures Arranged(ys, xs, leq)
  {
    ys := [];
    for n := 0 to |xs|
      invariant Arranged(ys, xs[..n], leq)
    {
      ys := Insert(xs[n], ys, leq);
      assert xs[..n + 1] == xs[..n] + [xs[n]];
    }
    assert xs[..|xs|] == xs;
  }

  method Insert<T(!new)>(x: T, xs: seq<T>, leq: (T, T) -> bool) returns (ys: seq<T>)
    requires TotalPreorder(leq) && SortedBy(xs, leq)
    ensures SortedBy(ys, leq) && multiset(ys) == multiset(xs) + multiset{x}
  {
    var i := 0;
    while i < |xs| && leq(xs[i], x)
      invariant i <= |xs|
      invariant forall j :: 0 <= j < i ==> leq(xs[j], x)
    {
      i := i + 1;
    }
    ys := xs[..i] + [x] + xs[i..];
    InsertSorted(x, xs, i, leq);
    assert xs == xs[..i] + xs[i..];
  }

  lemma InsertSorted<T(!new)>(x: T, xs: seq<T>, i: nat, leq: (T, T) -> bool)
    requires TotalPreorder(leq) && SortedBy(xs, leq) && i <= |xs|
    requires forall j :: 0 <= j < i ==> leq(xs[j], x)
    requires i < |xs| ==> !leq(xs[i], x)
    ensures SortedBy(xs[..i] + [x] + xs[i..], leq)
  {
    forall j | i <= j < |xs| ensures leq(x, xs[j]) {
      assert Comparable(leq, xs[i], x) && Chains(leq, x, xs[i], xs[j]);
    }
  }

  /** No two different elements compare equal. */
  ghost predicate Separated<T(!new)>(xs: multiset<T>, leq: (T, T) -> bool) {
    forall x, y :: x in xs && y in xs && leq(x, y) && leq(y, x) ==> x == y
  }

  /** Then the sorted rearrangement is unique. */
  lemma {:induction false} ArrangementUnique<T(!new)>(xs: seq<T>, ys: seq<T>, leq: (T, T) -> bool)
    requires TotalPreorder(leq) && Separated(multiset(xs), leq)
    requires SortedBy(xs, leq) && SortedBy(ys, leq) && multiset(xs) == multiset(ys)
    ensures xs == ys
  {
    SameLength(xs, ys);
    if xs != [] {
      ArrangementStep(xs, ys, leq);
      ArrangementUnique(xs[1..], ys[1..], leq);
      assert xs == [xs[0]] + xs[1..];
    }
  }

  /** A sort has one possible outcome exactly when no two different elements tie. */
  lemma OutcomeIsUniqueIff<T(!new)>(xs: seq<T>, leq: (T, T) -> bool)
    requires TotalPreorder(leq) && SortedBy(xs, leq)
    ensures (forall ys :: Arranged(ys, xs, leq) ==> ys == xs) <==> Separated(multiset(xs), leq)
  {
    if Separated(multiset(xs), leq) {
      forall ys | Arranged(ys, xs, leq) ensures ys == xs {
        ArrangementUnique(xs, ys, leq);
      }
    } else {
      var x, y :| x in multiset(xs) && y in multiset(xs) && leq(x, y) && leq(y, x) && x != y;
      var i :| 0 <= i < |xs| && xs[i] == x;
      var j :| 0 <= j < |xs| && xs[j] == y;
      if i < j {
        TieSwaps(xs, i, j, leq);
      } else {
        TieSwaps(xs, j, i, leq);
      }
    }
  }

  lemma TieSwaps<T(!new)>(xs: seq<T>, i: nat, j: nat, leq: (T, T) -> bool)
    requires TotalPreorder(leq) && SortedBy(xs, leq) && i < j < |xs| && leq(xs[j], xs[i]) && xs[i] != xs[j]
    ensures exists ys :: Arranged(ys, xs, leq) && ys != xs
  {
    var ys := xs[i := xs[j]][j := xs[i]];
    forall k | 0 <= k < |xs| ensures leq(ys[k], xs[k]) && leq(xs[k], ys[k]) {
      assert Comparable(leq, xs[k], xs[k]);
    }
    forall k, l | 0 <= k < l < |xs| ensures leq(ys[k], ys[l]) {
      assert Chains(leq, ys[k], xs[k], xs[l]) && Chains(leq, ys[k], xs[l], ys[l]);
    }
    assert ys[i] != xs[i];
    assert Arranged(ys, xs, leq);
  }

  lemma ArrangementStep<T(!new)>(xs: seq<T>, ys: seq<T>, leq: (T, T) -> bool)
    requires TotalPreorder(leq) && Separated(multiset(xs), leq)
    requires SortedBy(xs, leq) && SortedBy(ys, leq) && multiset(xs) == multiset(ys)
    requires xs != [] && ys != []
    ensures xs[0] == ys[0] && multiset(xs[1..]) == multiset(ys[1..])
    ensures Separated(multiset(xs[1..]), leq)
  {
    FirstIsLeast(xs, ys, leq);
    FirstIsLeast(ys, xs, leq);
    WithoutFirst(xs);
    WithoutFirst(ys);
  }

  lemma WithoutFirst<T>(xs: seq<T>)
    requires xs != []
    ensures xs[0] in multiset(xs) && multiset(xs[1..]) == multiset(xs) - multiset{xs[0]}
  {
    assert xs == [xs[0]] + xs[1..];
  }

  lemma FirstIsLeast<T(!new)>(xs: seq<T>, ys: seq<T>, leq: (T, T) -> bool)
    requires TotalPreorder(leq) && SortedBy(xs, leq) && multiset(xs) == multiset(ys) && xs != [] && ys != []
    ensures ys[0] in multiset(xs) && leq(xs[0], ys[0])
  {
    assert Comparable(leq, xs[0], xs[0]);
    assert ys[0] in multiset(xs);
  }

  // ----- rearrangements -----

  /** A list without the last occurrence of x. */
  function Without<T(==)>(xs: seq<T>, x: T): (ys: seq<T>)
    requires x in xs
    ensures |ys| == |xs| - 1
  {
    var n := |xs| - 1;
    if xs[n] == x then xs[..n] else Without(xs[..n], x) + [xs[n]]
  }

  lemma {:induction false} WithoutBag<T>(xs: seq<T>, x: T)
    requires x in xs
    ensures x in multiset(xs) && multiset(Without(xs, x)) == multiset(xs) - multiset{x}
  {
    var n := |xs| - 1;
    assert xs == xs[..n] + [xs[n]];
    if xs[n] != x {
      WithoutBag(xs[..n], x);
    }
  }

  lemma SameLength<T>(xs: seq<T>, ys: seq<T>)
    requires multiset(xs) == multiset(ys)
    ensures |xs| == |ys|
  {
    assert |multiset(xs)| == |xs| && |multiset(ys)| == |ys|;
  }

  function Image<T, U>(xs: seq<T>, f: T -> U): (ys: seq<U>)
    ensures |ys| == |xs|
  {
    if xs == [] then [] else Image(xs[..|xs| - 1], f) + [f(xs[|xs| - 1])]
  }

  /** Different elements have different images. */
  ghost predicate Apart<T(!new), U>(xs: seq<T>, f: T -> U) {
    forall x, y :: x in xs && y in xs && f(x) == f(y) ==> x == y
  }

  lemma {:induction false} ImageWithout<T, U>(xs: seq<T>, x: T, f: T -> U)
    requires x in xs
    ensures multiset(Image(xs, f)) == multiset(Image(Without(xs, x), f)) + multiset{f(x)}
  {
    var n := |xs| - 1;
    if xs[n] != x {
      ImageWithout(xs[..n], x, f);
      var shorter := Without(xs, x);
      assert shorter[..n - 1] == Without(xs[..n], x);
    }
  }

  lemma {:induction false} ImagesOfEqualBags<T(!new), U>(xs: seq<T>, ys: seq<T>, f: T -> U)
    requires multiset(xs) == multiset(ys)
    ensures multiset(Image(xs, f)) == multiset(Image(ys, f))
    decreases |xs|
  {
    SameLength(xs, ys);
    if xs != [] {
      var x := xs[|xs| - 1];
      assert x in multiset(ys);
      WithoutBag(xs, x);
      WithoutBag(ys, x);
      ImageWithout(xs, x, f);
      ImageWithout(ys, x, f);
      ImagesOfEqualBags(Without(xs, x), Without(ys, x), f);
    }
  }

  /** An image occurs as often as the one element that has it. */
  lemma {:induction false} ImageCount<T(!new), U>(xs: seq<T>, x: T, f: T -> U)
    requires forall y :: y in xs && f(y) == f(x) ==> y == x
    ensures multiset(Image(xs, f))[f(x)] == multiset(xs)[x]
  {
    if xs != [] {
      var n := |xs| - 1;
      assert xs == xs[..n] + [xs[n]];
      ImageCount(xs[..n], x, f);
    }
  }

  lemma BagsOfEqualImages<T(!new), U>(xs: seq<T>, ys: seq<T>, f: T -> U)
    requires Apart(xs + ys, f) && multiset(Image(xs, f)) == multiset(Image(ys, f))
    ensures multiset(xs) == multiset(ys)
  {
    forall x ensures multiset(xs)[x] == multiset(ys)[x] {
      if x in xs + ys {
        ImageCount(xs, x, f);
        ImageCount(ys, x, f);
      }
    }
  }

  lemma {:induction false} ImageAt<T, U>(xs: seq<T>, f: T -> U)
    ensures forall i :: 0 <= i < |xs| ==> Image(xs, f)[i] == f(xs[i])
  {
    if xs != [] {
      ImageAt(xs[..|xs| - 1], f);
    }
  }

  /** A sum over a list. */
  function Total<T>(xs: seq<T>, f: T -> real): real {
    if xs == [] then 0.0 else Total(xs[..|xs| - 1], f) + f(xs[|xs| - 1])
  }

  lemma {:induction false} TotalWithout<T>(xs: seq<T>, x: T, f: T -> real)
    requires x in xs
    ensures Total(xs, f) == Total(Without(xs, x), f) + f(x)
  {
    var n := |xs| - 1;
    if xs[n] != x {
      TotalWithout(xs[..n], x, f);
      var shorter := Without(xs, x);
      assert shorter[..n - 1] == Without(xs[..n], x);
    }
  }

  /** Sums do not depend on order. */
  lemma {:induction false} TotalOfBag<T>(xs: seq<T>, ys: seq<T>, f: T -> real)
    requires multiset(xs) == multiset(ys)
    ensures Total(xs, f) == Total(ys, f)
    decreases |xs|
  {
    SameLength(xs, ys);
    if xs != [] {
      var x := xs[|xs| - 1];
      assert x in multiset(ys);
      WithoutBag(xs, x);
      WithoutBag(ys, x);
      TotalWithout(xs, x, f);
      TotalWithout(ys, x, f);
      TotalOfBag(Without(xs, x), Without(ys, x), f);
    }
  }

  lemma StringLeqIsAnOrder()
    ensures TotalPreorder(StringLeq)
    ensures forall a, b :: StringLeq(a, b) && StringLeq(b, a) ==> a == b
  {
    forall a: string, b: string
      ensures Comparable(StringLeq, a, b)
      ensures StringLeq(a, b) && StringLeq(b, a) ==> a == b
    {
      LessTotal(a, b, CharCode);
      if Less(a, b, CharCode) && Less(b, a, CharCode) {
        LessTransitive(a, b, a, CharCode);
        LessIrreflexive(a, CharCode);
      }
    }
    forall a: string, b: string, c: string
      ensures Chains(StringLeq, a, b, c)
    {
      if Less(a, b, CharCode) && Less(b, c, CharCode) {
        LessTransitive(a, b, c, CharCode);
      }
    }
  }
}
