/**
  Power samples and the step function they describe.

  A list of samples is read as a step function of time: from its own instant on, a sample is the
  state of the hardware until the next sample takes over.  `StateAt` is that reading.  Everything
  proved about caches, restarts and retention is stated through it, so that two lists which differ
  only in samples no instant can see (an equal-timestamp duplicate) count as the same history.

  Instants are integer nanoseconds since the Unix epoch.
 */
module Samples {
  import opened Common

  type u64 = n: int | 0 <= n < 0x1_0000_0000_0000_0000

  const ONE: u64 := 0x3FF0_0000_0000_0000
  const OCTAVE: u64 := 0x0010_0000_0000_0000
  const INFINITY: u64 := 0x7FF0_0000_0000_0000
  const SIGN: u64 := 0x8000_0000_0000_0000

  /**
    The number a positive normal pattern stands for: linear between 1 and 2, and doubled by every
    step of the exponent field.  Patterns below the smallest normal number read as 0.
   */
  function Magnitude(p: nat): real
    decreases if p < ONE then ONE + OCTAVE - p else if p < ONE + OCTAVE then 0 else p
  {
    if p < OCTAVE then 0.0
    else if p < ONE then Magnitude(p + OCTAVE) / 2.0
    else if p < ONE + OCTAVE then 1.0 + (p - ONE) as real / OCTAVE as real
    else 2.0 * Magnitude(p - OCTAVE)
  }

  /** An IEEE 754 binary64 number, kept as the bit pattern that the store writes to disk. */
  datatype Float64 = Float64(bits: u64) {
    /** The number the pattern stands for; infinities and NaNs are outside the model and read as 0. */
    function Value(): real {
      if bits < INFINITY then Magnitude(bits)
      else if SIGN <= bits < SIGN + INFINITY then -Magnitude(bits - SIGN)
      else 0.0
    }
  }

  /** One observation: when, the draw, and the idle threshold in force at that moment. */
  datatype Sample = Sample(at: int, powerW: Float64, activeW: Float64) {
    predicate Active() {
      powerW.Value() > activeW.Value()
    }
  }

  /** Two to the power of e. */
  function Pow2(e: int): real
    decreases if e < 0 then -e else e
  {
    if e == 0 then 1.0 else if e > 0 then 2.0 * Pow2(e - 1) else Pow2(e + 1) / 2.0
  }

  lemma {:induction false} MagnitudeOf(e: nat, m: nat)
    requires 1 <= e && m < OCTAVE
    ensures Magnitude(e * OCTAVE + m) == (1.0 + m as real / OCTAVE as real) * Pow2(e - 1023)
    decreases if e < 1023 then 1023 - e else e - 1023
  {
    if e < 1023 {
      MagnitudeOf(e + 1, m);
    } else if e > 1023 {
      MagnitudeOf(e - 1, m);
    }
  }

  lemma PatternOf(e: nat, m: nat) returns (p: nat, size: real)
    requires 1 <= e <= 2046 && m < OCTAVE
    ensures p == e * OCTAVE + m && p < INFINITY && Magnitude(p) == size
    ensures size == (1.0 + m as real / OCTAVE as real) * Pow2(e - 1023)
  {
    MagnitudeOf(e, m);
    p := e * OCTAVE + m;
    size := Magnitude(p);
  }

  lemma ValueOf(x: Float64, negative: bool, p: nat, size: real)
    requires p < INFINITY && Magnitude(p) == size && x.bits == (if negative then SIGN else 0) + p
    ensures x.Value() == if negative then -size else size
  {
  }

  /** Sign, exponent and fraction of a normal pattern stand for the number that section 3.4 of IEEE 754-2008 gives. */
  lemma NormalNumber(x: Float64, negative: bool, e: nat, m: nat)
    requires 1 <= e <= 2046 && m < 0x10_0000_0000_0000
    requires x.bits == (if negative then 0x8000_0000_0000_0000 else 0) + e * 0x10_0000_0000_0000 + m
    ensures var size := (1.0 + m as real / 4_503_599_627_370_496.0) * Pow2(e - 1023);
            x.Value() == if negative then -size else size
  {
    var p, size := PatternOf(e, m);
    ValueOf(x, negative, p, size);
  }

  /** In time order, as the sampler keeps a key's window. */
  ghost predicate Ascending(xs: seq<Sample>) {
    |xs| <= 1 || (xs[|xs| - 2].at <= xs[|xs| - 1].at && Ascending(xs[..|xs| - 1]))
  }

  /** In time order with one sample per instant, as the store keeps a bucket. */
  ghost predicate StrictlyAscending(xs: seq<Sample>) {
    |xs| <= 1 || (xs[|xs| - 2].at < xs[|xs| - 1].at && StrictlyAscending(xs[..|xs| - 1]))
  }

  /** No sample of the list is later than t. */
  predicate UpTo(xs: seq<Sample>, t: int) {
    xs != [] ==> xs[|xs| - 1].at <= t
  }

  lemma {:induction false} AscendingPair(xs: seq<Sample>, i: nat, j: nat)
    requires Ascending(xs) && i <= j < |xs|
    ensures xs[i].at <= xs[j].at
    decreases |xs|
  {
    var n := |xs| - 1;
    if j < n {
      AscendingPair(xs[..n], i, j);
    } else if i < n {
      AscendingPair(xs[..n], i, n - 1);
    }
  }

  lemma {:induction false} StrictIsAscending(xs: seq<Sample>)
    requires StrictlyAscending(xs)
    ensures Ascending(xs)
  {
    if |xs| > 1 {
      StrictIsAscending(xs[..|xs| - 1]);
    }
  }

  /** Later samples keep the order. */
  lemma AscendingAppend(xs: seq<Sample>, s: Sample)
    ensures Ascending(xs + [s]) <==> Ascending(xs) && (xs != [] ==> xs[|xs| - 1].at <= s.at)
  {
  }

  /** The sample in force at instant t: the last one taken at or before t. */
  function StateAt(xs: seq<Sample>, t: int): Option<Sample> {
    if xs == [] then None
    else if xs[|xs| - 1].at <= t then Some(xs[|xs| - 1])
    else StateAt(xs[..|xs| - 1], t)
  }

  /** The samples taken at or after the cut-off. */
  function Since(xs: seq<Sample>, cutoff: int): seq<Sample> {
    if xs == [] then []
    else
      var rest := Since(xs[..|xs| - 1], cutoff);
      if xs[|xs| - 1].at < cutoff then rest else rest + [xs[|xs| - 1]]
  }

  /** Two lists that describe the same history at every instant. */
  ghost predicate SameSteps(xs: seq<Sample>, ys: seq<Sample>) {
    forall t: int :: StateAt(xs, t) == StateAt(ys, t)
  }

  /** The state at t is sample i when t lies between sample i and the next one. */
  lemma {:induction false} StateAtIs(xs: seq<Sample>, i: nat, t: int)
    requires Ascending(xs) && i < |xs|
    requires xs[i].at <= t && (i + 1 < |xs| ==> t < xs[i + 1].at)
    ensures StateAt(xs, t) == Some(xs[i])
    decreases |xs|
  {
    var n := |xs| - 1;
    if i < n {
      AscendingPair(xs, i + 1, n);
      StateAtIs(xs[..n], i, t);
    }
  }

  /** Nothing is known exactly before the first sample. */
  lemma {:induction false} UnknownBeforeFirst(xs: seq<Sample>, t: int)
    requires Ascending(xs)
    ensures StateAt(xs, t).None? <==> xs == [] || t < xs[0].at
  {
    if xs != [] {
      var n := |xs| - 1;
      AscendingPair(xs, 0, n);
      if n > 0 && t < xs[n].at {
        UnknownBeforeFirst(xs[..n], t);
      }
    }
  }

  lemma {:induction false} StateAtIsASample(xs: seq<Sample>, t: int)
    ensures StateAt(xs, t).Some? ==> StateAt(xs, t).value in xs && StateAt(xs, t).value.at <= t
  {
    if xs != [] && xs[|xs| - 1].at > t {
      StateAtIsASample(xs[..|xs| - 1], t);
    }
  }

  lemma {:induction false} SinceAppend(xs: seq<Sample>, ys: seq<Sample>, c: int)
    ensures Since(xs + ys, c) == Since(xs, c) + Since(ys, c)
  {
    if ys == [] {
      assert xs + ys == xs;
    } else {
      var n := |ys| - 1;
      SinceAppend(xs, ys[..n], c);
      assert (xs + ys)[..|xs + ys| - 1] == xs + ys[..n];
    }
  }

  lemma {:induction false} SinceAscending(xs: seq<Sample>, c: int)
    requires Ascending(xs)
    ensures Ascending(Since(xs, c))
    ensures Since(xs, c) != [] ==> Since(xs, c)[|Since(xs, c)| - 1] == xs[|xs| - 1]
  {
    if xs != [] {
      var n := |xs| - 1;
      SinceAscending(xs[..n], c);
      if c <= xs[n].at {
        AscendingAppend(Since(xs[..n], c), xs[n]);
      } else {
        NoneSince(xs, c);
      }
    }
  }

  lemma {:induction false} SinceStrict(xs: seq<Sample>, c: int)
    requires StrictlyAscending(xs)
    ensures StrictlyAscending(Since(xs, c))
    ensures Since(xs, c) != [] ==> Since(xs, c)[|Since(xs, c)| - 1] == xs[|xs| - 1]
  {
    if xs != [] {
      var n := |xs| - 1;
      SinceStrict(xs[..n], c);
      var ys := Since(xs[..n], c);
      if c <= xs[n].at {
        assert (ys + [xs[n]])[..|ys|] == ys;
      } else {
        StrictIsAscending(xs);
        NoneSince(xs, c);
      }
    }
  }

  lemma {:induction false} NoneSince(xs: seq<Sample>, c: int)
    requires Ascending(xs) && (xs != [] ==> xs[|xs| - 1].at < c)
    ensures Since(xs, c) == []
  {
    if xs != [] {
      NoneSince(xs[..|xs| - 1], c);
    }
  }

  /** What is kept is not older than the cut-off. */
  lemma {:induction false} SinceFloor(xs: seq<Sample>, c: int)
    ensures forall x :: x in Since(xs, c) ==> c <= x.at
  {
    if xs != [] {
      SinceFloor(xs[..|xs| - 1], c);
    }
  }

  lemma {:induction false} AllSince(xs: seq<Sample>, c: int)
    requires Ascending(xs) && (xs != [] ==> c <= xs[0].at)
    ensures Since(xs, c) == xs
  {
    if xs != [] {
      AscendingPair(xs, 0, |xs| - 1);
      AllSince(xs[..|xs| - 1], c);
    }
  }

  /** On a sorted list the retained samples are the suffix from the first one not before the cut-off. */
  lemma {:induction false} SinceIsSuffix(xs: seq<Sample>, c: int, i: nat)
    requires i <= |xs|
    requires forall j :: 0 <= j < i ==> xs[j].at < c
    requires forall j :: i <= j < |xs| ==> c <= xs[j].at
    ensures Since(xs, c) == xs[i..]
  {
    if xs != [] {
      var n := |xs| - 1;
      if i == |xs| {
        SinceIsSuffix(xs[..n], c, n);
      } else {
        SinceIsSuffix(xs[..n], c, i);
        assert xs[i..] == xs[..n][i..] + [xs[n]];
      }
    }
  }

  lemma {:induction false} SinceSince(xs: seq<Sample>, c: int, d: int)
    ensures Since(Since(xs, c), d) == Since(xs, Max(c, d))
  {
    if xs != [] {
      var n := |xs| - 1;
      SinceSince(xs[..n], c, d);
      if c <= xs[n].at {
        SinceAppend(Since(xs[..n], c), [xs[n]], d);
        assert Since([xs[n]], d) == if xs[n].at < d then [] else [xs[n]];
      }
    }
  }

  /** Dropping old samples hides exactly the instants whose state was one of the dropped samples. */
  lemma {:induction false} StateAtSince(xs: seq<Sample>, c: int, t: int)
    requires Ascending(xs)
    ensures StateAt(Since(xs, c), t)
         == if StateAt(xs, t).Some? && c <= StateAt(xs, t).value.at then StateAt(xs, t) else None
  {
    if xs != [] {
      var n := |xs| - 1;
      if xs[n].at < c {
        NoneSince(xs, c);
        NoneAfterLast(xs, t);
      } else {
        StateAtSince(xs[..n], c, t);
        var ys := Since(xs, c);
        assert ys[..|ys| - 1] == Since(xs[..n], c);
      }
    }
  }

  lemma {:induction false} NoneAfterLast(xs: seq<Sample>, t: int)
    requires Ascending(xs) && xs != []
    ensures StateAt(xs, t).Some? ==> StateAt(xs, t).value.at <= xs[|xs| - 1].at
  {
    if xs[|xs| - 1].at > t {
      StateAtIsASample(xs, t);
    }
  }

  lemma SameStepsSince(xs: seq<Sample>, ys: seq<Sample>, c: int)
    requires Ascending(xs) && Ascending(ys) && SameSteps(xs, ys)
    ensures SameSteps(Since(xs, c), Since(ys, c))
  {
    forall t: int
      ensures StateAt(Since(xs, c), t) == StateAt(Since(ys, c), t)
    {
      StateAtSince(xs, c, t);
      StateAtSince(ys, c, t);
    }
  }

  lemma SameStepsAppend(xs: seq<Sample>, ys: seq<Sample>, s: Sample)
    requires SameSteps(xs, ys)
    ensures SameSteps(xs + [s], ys + [s])
  {
  }

  /** The list with every equal-timestamp group reduced to its last sample. */
  function Collapse(xs: seq<Sample>): seq<Sample> {
    if xs == [] then []
    else
      var s, rest := xs[|xs| - 1], Collapse(xs[..|xs| - 1]);
      if rest != [] && rest[|rest| - 1].at == s.at then rest[..|rest| - 1] + [s] else rest + [s]
  }

  lemma CollapseEnds(xs: seq<Sample>)
    ensures if xs == [] then Collapse(xs) == []
            else Collapse(xs) != [] && Collapse(xs)[|Collapse(xs)| - 1] == xs[|xs| - 1]
  {
  }

  /** It has one sample per instant. */
  lemma {:induction false} CollapseIsStrict(xs: seq<Sample>)
    requires Ascending(xs)
    ensures StrictlyAscending(Collapse(xs))
  {
    if xs != [] {
      var n := |xs| - 1;
      var s, rest := xs[n], Collapse(xs[..n]);
      CollapseIsStrict(xs[..n]);
      CollapseEnds(xs[..n]);
      assert rest != [] ==> rest[|rest| - 1].at <= s.at;
      if rest != [] && rest[|rest| - 1].at == s.at {
        ReplaceLast(rest, s);
      } else {
        AddLast(rest, s);
      }
    }
  }

  lemma ReplaceLast(rest: seq<Sample>, s: Sample)
    requires StrictlyAscending(rest) && rest != [] && rest[|rest| - 1].at == s.at
    ensures StrictlyAscending(rest[..|rest| - 1] + [s])
  {
    var m := |rest| - 1;
    assert (rest[..m] + [s])[..m] == rest[..m];
  }

  lemma AddLast(rest: seq<Sample>, s: Sample)
    requires StrictlyAscending(rest) && (rest != [] ==> rest[|rest| - 1].at < s.at)
    ensures StrictlyAscending(rest + [s])
  {
    assert (rest + [s])[..|rest|] == rest;
  }

  /** The sample that replaces one of its own instant hides it, so nothing changes at any instant. */
  lemma {:induction false} CollapseKeepsSteps(xs: seq<Sample>, t: int)
    ensures StateAt(Collapse(xs), t) == StateAt(xs, t)
  {
    if xs != [] {
      var n := |xs| - 1;
      var s, rest := xs[n], Collapse(xs[..n]);
      CollapseKeepsSteps(xs[..n], t);
      if rest != [] && rest[|rest| - 1].at == s.at {
        StateAtLast(rest[..|rest| - 1], s, t);
      } else {
        StateAtLast(rest, s, t);
      }
    }
  }

  lemma StateAtLast(xs: seq<Sample>, s: Sample, t: int)
    ensures StateAt(xs + [s], t) == if s.at <= t then Some(s) else StateAt(xs, t)
  {
    assert (xs + [s])[..|xs|] == xs;
  }

  /** A history determines its duplicate-free list: equal step functions have equal samples. */
  lemma {:induction false} SameStepsUnique(xs: seq<Sample>, ys: seq<Sample>)
    requires StrictlyAscending(xs) && StrictlyAscending(ys) && SameSteps(xs, ys)
    ensures xs == ys
  {
    if xs == [] || ys == [] {
      EmptyHistory(xs, ys);
    } else {
      var m, n := |xs| - 1, |ys| - 1;
      var far := Max(xs[m].at, ys[n].at);
      assert StateAt(xs, far) == Some(xs[m]) && StateAt(ys, far) == Some(ys[n]);
      forall t: int
        ensures StateAt(xs[..m], t) == StateAt(ys[..n], t)
      {
        TruncatedState(xs, t);
        TruncatedState(ys, t);
      }
      SameStepsUnique(xs[..m], ys[..n]);
      assert xs == xs[..m] + [xs[m]] && ys == ys[..n] + [ys[n]];
    }
  }

  lemma EmptyHistory(xs: seq<Sample>, ys: seq<Sample>)
    requires SameSteps(xs, ys)
    requires xs == [] || ys == []
    ensures xs == ys
  {
    if xs != [] {
      ghost var last := StateAt(xs, xs[|xs| - 1].at);
      assert false;
    } else if ys != [] {
      ghost var last := StateAt(ys, ys[|ys| - 1].at);
      assert false;
    }
  }

  lemma {:induction false} TruncatedState(xs: seq<Sample>, t: int)
    requires StrictlyAscending(xs) && xs != []
    ensures StateAt(xs[..|xs| - 1], t) == StateAt(xs, Min(t, xs[|xs| - 1].at - 1))
  {
  }

  /** A window and a duplicate-free list with the same history: collapsing the window gives the list. */
  lemma SameStepsCollapse(xs: seq<Sample>, ys: seq<Sample>)
    requires Ascending(xs) && StrictlyAscending(ys) && SameSteps(xs, ys)
    ensures Collapse(xs) == ys
  {
    CollapseIsStrict(xs);
    forall t: int
      ensures StateAt(Collapse(xs), t) == StateAt(ys, t)
    {
      CollapseKeepsSteps(xs, t);
    }
    SameStepsUnique(Collapse(xs), ys);
  }
}
