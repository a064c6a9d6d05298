/**
  What overlapping Records do to reports: the window with the later of two samples inserted first, against
  the window in clock order.
 */
module OverlappingReports {
  import opened Common
  import opened Samples
  import opened Windows

  /** How much of [from, to) lies in the window [a, b). */
  function Overlap(from: int, to: int, a: int, b: int): nat {
    Max(0, Min(to, b) - Max(from, a))
  }

  /** What a sample adds when it is held from its own instant until `to`. */
  function HeldUntil(rate: Rate, x: Sample, to: int, a: int, b: int): real {
    rate(Some(x)) * Overlap(x.at, to, a, b) as real
  }

  lemma {:induction false} SamePrefix(xs: seq<Sample>, ys: seq<Sample>, rate: Rate, n: nat, a: int, b: int)
    requires n < |xs| && n < |ys| && forall i :: 0 <= i <= n ==> xs[i] == ys[i]
    ensures Rectangles(xs, rate, n, a, b) == Rectangles(ys, rate, n, a, b)
  {
    if n > 0 {
      SamePrefix(xs, ys, rate, n - 1, a, b);
    }
  }

  lemma CreditIsHeld(xs: seq<Sample>, rate: Rate, i: nat, a: int, b: int)
    requires i < |xs|
    ensures Credit(xs, rate, i, a, b) == HeldUntil(rate, xs[i], if i + 1 < |xs| then xs[i + 1].at else b, a, b)
  {
    var width := Max(0, To(xs, i, b) - From(xs, i, a));
    HeldIsProduct(rate(Some(xs[i])), width);
  }

  /** What the last samples of a window add: the one before the two, if any, and the two. */
  function Tail(xs: seq<Sample>, x: Sample, y: Sample, rate: Rate, a: int, b: int): real {
    (if xs == [] then 0.0 else HeldUntil(rate, xs[|xs| - 1], x.at, a, b))
    + HeldUntil(rate, x, y.at, a, b) + HeldUntil(rate, y, b, a, b)
  }

  function Head(xs: seq<Sample>, rate: Rate, a: int, b: int): real {
    if xs == [] then 0.0 else Rectangles(xs, rate, |xs| - 1, a, b)
  }

  /** The loop's total for a window that ends in two more samples. */
  lemma TwoMore(xs: seq<Sample>, x: Sample, y: Sample, rate: Rate, a: int, b: int)
    ensures Rectangles(xs + [x] + [y], rate, |xs| + 2, a, b) == Head(xs, rate, a, b) + Tail(xs, x, y, rate, a, b)
  {
    var zs, n := xs + [x] + [y], |xs|;
    CreditIsHeld(zs, rate, n, a, b);
    CreditIsHeld(zs, rate, n + 1, a, b);
    if n > 0 {
      SamePrefix(zs, xs, rate, n - 1, a, b);
      CreditIsHeld(zs, rate, n - 1, a, b);
    }
    assert Rectangles(zs, rate, n + 2, a, b)
        == Rectangles(zs, rate, n, a, b) + Credit(zs, rate, n, a, b) + Credit(zs, rate, n + 1, a, b);
  }

  /**
    How far a report computed from the swapped window is off, for any rate: the last sample before the two is
    held on through [s.at, t.at) a second time, and from t.at on the earlier sample stands in for the later.
   */
  function Error(xs: seq<Sample>, s: Sample, t: Sample, rate: Rate, a: int, b: int): real {
    (if xs == [] then 0.0 else rate(Some(xs[|xs| - 1])) * Overlap(s.at, t.at, a, b) as real)
    + (rate(Some(s)) - rate(Some(t))) * Overlap(t.at, b, a, b) as real
  }

  lemma SwappedTotal(xs: seq<Sample>, s: Sample, t: Sample, rate: Rate, a: int, b: int)
    requires UpTo(xs, s.at) && s.at <= t.at
    ensures Rectangles(xs + [t] + [s], rate, |xs| + 2, a, b)
         == Rectangles(xs + [s] + [t], rate, |xs| + 2, a, b) + Error(xs, s, t, rate, a, b)
  {
    TwoMore(xs, t, s, rate, a, b);
    TwoMore(xs, s, t, rate, a, b);
    TailSwapped(xs, s, t, rate, a, b);
  }

  lemma TailSwapped(xs: seq<Sample>, s: Sample, t: Sample, rate: Rate, a: int, b: int)
    requires UpTo(xs, s.at) && s.at <= t.at
    ensures Tail(xs, t, s, rate, a, b) == Tail(xs, s, t, rate, a, b) + Error(xs, s, t, rate, a, b)
  {
    PairSwapped(rate, s, t, a, b);
    if xs != [] {
      HeldOn(rate, xs[|xs| - 1], s.at, t.at, a, b);
    }
  }

  lemma HeldOn(rate: Rate, last: Sample, p: int, q: int, a: int, b: int)
    requires last.at <= p <= q
    ensures HeldUntil(rate, last, q, a, b)
         == HeldUntil(rate, last, p, a, b) + rate(Some(last)) * Overlap(p, q, a, b) as real
  {
    Split(rate(Some(last)), last.at, p, q, a, b);
  }

  lemma PairSwapped(rate: Rate, s: Sample, t: Sample, a: int, b: int)
    requires s.at <= t.at
    ensures HeldUntil(rate, t, s.at, a, b) + HeldUntil(rate, s, b, a, b)
         == HeldUntil(rate, s, t.at, a, b) + HeldUntil(rate, t, b, a, b)
            + (rate(Some(s)) - rate(Some(t))) * Overlap(t.at, b, a, b) as real
  {
    Split(rate(Some(s)), s.at, t.at, b, a, b);
    assert Overlap(t.at, s.at, a, b) == 0;
  }

  lemma Split(x: real, p: int, q: int, r: int, a: int, b: int)
    requires p <= q && (q <= r || b <= r)
    ensures x * Overlap(p, r, a, b) as real == x * Overlap(p, q, a, b) as real + x * Overlap(q, r, a, b) as real
  {
    assert Overlap(p, r, a, b) == Overlap(p, q, a, b) + Overlap(q, r, a, b);
  }

  /** The report of the swapped window is the right one plus the error, field by field. */
  lemma SwappedReport(xs: seq<Sample>, s: Sample, t: Sample, a: int, b: int)
    requires UpTo(xs, s.at) && s.at <= t.at
    ensures Measure(xs + [t] + [s], a, b) == Measure(xs + [s] + [t], a, b).Plus(
              WindowSummary(Hours(Error(xs, s, t, ActiveTime, a, b)), Hours(Error(xs, s, t, ObservedTime, a, b)),
                            KWh(Error(xs, s, t, ActivePower, a, b)), KWh(Error(xs, s, t, Power, a, b))))
  {
    ProgressIsRectangles(xs + [t] + [s], |xs| + 2, a, b);
    ProgressIsRectangles(xs + [s] + [t], |xs| + 2, a, b);
    SwappedTotal(xs, s, t, ActiveTime, a, b);
    SwappedTotal(xs, s, t, ObservedTime, a, b);
    SwappedTotal(xs, s, t, ActivePower, a, b);
    SwappedTotal(xs, s, t, Power, a, b);
  }

  /** The two samples weigh the same in every report. */
  predicate SameWeight(s: Sample, t: Sample) {
    s.Active() == t.Active() && s.powerW.Value() == t.powerW.Value()
  }

  /**
    The swapped window reports the same exactly when the instants between the two clocks are outside the
    report or there was no earlier sample to hold on, and the instants after them are outside it or the
    two samples weigh the same.
   */
  lemma ReportsAgreeIff(xs: seq<Sample>, s: Sample, t: Sample, a: int, b: int)
    requires UpTo(xs, s.at) && s.at <= t.at
    ensures Measure(xs + [t] + [s], a, b) == Measure(xs + [s] + [t], a, b)
       <==> (xs == [] || Overlap(s.at, t.at, a, b) == 0) && (Overlap(t.at, b, a, b) == 0 || SameWeight(s, t))
  {
    SwappedReport(xs, s, t, a, b);
    NoError(xs, s, t, ObservedTime, a, b);
    NoError(xs, s, t, ActiveTime, a, b);
    NoError(xs, s, t, ActivePower, a, b);
    NoError(xs, s, t, Power, a, b);
    SameIff(Measure(xs + [s] + [t], a, b), Error(xs, s, t, ActiveTime, a, b), Error(xs, s, t, ObservedTime, a, b),
            Error(xs, s, t, ActivePower, a, b), Error(xs, s, t, Power, a, b));
  }

  lemma SameIff(w: WindowSummary, active: real, observed: real, activeEnergy: real, energy: real)
    ensures w.Plus(WindowSummary(Hours(active), Hours(observed), KWh(activeEnergy), KWh(energy))) == w
       <==> active == 0.0 && observed == 0.0 && activeEnergy == 0.0 && energy == 0.0
  {
  }

  lemma NoError(xs: seq<Sample>, s: Sample, t: Sample, rate: Rate, a: int, b: int)
    ensures xs == [] || Overlap(s.at, t.at, a, b) == 0 ==>
              (Error(xs, s, t, rate, a, b) == 0.0 <==> Overlap(t.at, b, a, b) == 0 || rate(Some(s)) == rate(Some(t)))
    ensures rate == ObservedTime ==>
              (Error(xs, s, t, rate, a, b) == 0.0 <==> xs == [] || Overlap(s.at, t.at, a, b) == 0)
  {
  }
}
