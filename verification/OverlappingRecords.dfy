/**
  What serialised Records are needed for.  Two Records of one key read their clocks at s.at <= t.at, less than
  the retention apart, and then overlap: each commits to the store, prunes it or not, and inserts into
  memory, and everything else is up to the scheduler.  This module says, for every window, every pair of
  samples and every interleaving, when memory still agrees with the store; `OverlappingReports` says by how
  much a report is off when it does not.

  The operator never gets here: it records a profile's power in that profile's reconcile only, and the
  work queue runs one reconcile of an object at a time.
 */
module OverlappingRecords {
  import opened Common
  import opened Samples
  import opened Archives
  import PowerSampler

  // ----- interleavings -----

  /** A step of one of the two Records; `first` is the one that read the earlier clock. */
  datatype Act = Commit(first: bool) | Sweep(first: bool, prunes: bool) | Insert(first: bool)

  /** What a Record does, in order; whether it prunes is up to the last prune of any key. */
  function RecordActs(first: bool, prunes: bool): seq<Act> {
    [Commit(first), Sweep(first, prunes), Insert(first)]
  }

  predicate Merges<T(==)>(zs: seq<T>, xs: seq<T>, ys: seq<T>) {
    if zs == [] then xs == [] && ys == []
    else
      var n, last := |zs| - 1, zs[|zs| - 1];
      || (xs != [] && xs[|xs| - 1] == last && Merges(zs[..n], xs[..|xs| - 1], ys))
      || (ys != [] && ys[|ys| - 1] == last && Merges(zs[..n], xs, ys[..|ys| - 1]))
  }

  /** The orders in which both Records can run. */
  predicate Interleaves(acts: seq<Act>, firstPrunes: bool, secondPrunes: bool) {
    Merges(acts, RecordActs(true, firstPrunes), RecordActs(false, secondPrunes))
  }

  /** Whose commits there are, and whose inserts, in order. */
  function Commits(acts: seq<Act>): seq<bool> {
    if acts == [] then []
    else
      var rest, last := Commits(acts[..|acts| - 1]), acts[|acts| - 1];
      if last.Commit? then rest + [last.first] else rest
  }

  function Inserts(acts: seq<Act>): seq<bool> {
    if acts == [] then []
    else
      var rest, last := Inserts(acts[..|acts| - 1]), acts[|acts| - 1];
      if last.Insert? then rest + [last.first] else rest
  }

  lemma {:induction false} OrdersMerge(acts: seq<Act>, xs: seq<Act>, ys: seq<Act>)
    requires Merges(acts, xs, ys)
    ensures Merges(Commits(acts), Commits(xs), Commits(ys)) && Merges(Inserts(acts), Inserts(xs), Inserts(ys))
  {
    if acts != [] {
      var n, last := |acts| - 1, acts[|acts| - 1];
      if xs != [] && xs[|xs| - 1] == last && Merges(acts[..n], xs[..|xs| - 1], ys) {
        OrdersMerge(acts[..n], xs[..|xs| - 1], ys);
        MergesLeft(Commits(acts[..n]), Commits(xs[..|xs| - 1]), Commits(ys), last.first);
        MergesLeft(Inserts(acts[..n]), Inserts(xs[..|xs| - 1]), Inserts(ys), last.first);
      } else {
        OrdersMerge(acts[..n], xs, ys[..|ys| - 1]);
        MergesRight(Commits(acts[..n]), Commits(xs), Commits(ys[..|ys| - 1]), last.first);
        MergesRight(Inserts(acts[..n]), Inserts(xs), Inserts(ys[..|ys| - 1]), last.first);
      }
    }
  }

  lemma MergesLeft<T>(zs: seq<T>, xs: seq<T>, ys: seq<T>, x: T)
    requires Merges(zs, xs, ys)
    ensures Merges(zs + [x], xs + [x], ys)
  {
    assert (zs + [x])[..|zs|] == zs && (xs + [x])[..|xs|] == xs;
  }

  lemma MergesRight<T>(zs: seq<T>, xs: seq<T>, ys: seq<T>, y: T)
    requires Merges(zs, xs, ys)
    ensures Merges(zs + [y], xs, ys + [y])
  {
    assert (zs + [y])[..|zs|] == zs && (ys + [y])[..|ys|] == ys;
  }

  /** Both commit and both insert, in one order or the other. */
  lemma OneOrTheOther(acts: seq<Act>, firstPrunes: bool, secondPrunes: bool)
    requires Interleaves(acts, firstPrunes, secondPrunes)
    ensures Commits(acts) == [true, false] || Commits(acts) == [false, true]
    ensures Inserts(acts) == [true, false] || Inserts(acts) == [false, true]
  {
    OrdersMerge(acts, RecordActs(true, firstPrunes), RecordActs(false, secondPrunes));
    OwnOrder(true, firstPrunes);
    OwnOrder(false, secondPrunes);
    TwoOrders(Commits(acts), true, false);
    TwoOrders(Inserts(acts), true, false);
  }

  lemma OwnOrder(first: bool, prunes: bool)
    ensures Commits(RecordActs(first, prunes)) == [first] == Inserts(RecordActs(first, prunes))
  {
    var one, two := [Commit(first)], [Commit(first), Sweep(first, prunes)];
    assert one[..0] == [] && two[..1] == one && RecordActs(first, prunes)[..2] == two;
    assert Commits(one) == [first] && Inserts(one) == [];
    assert Commits(two) == [first] && Inserts(two) == [];
  }

  lemma TwoOrders(zs: seq<bool>, x: bool, y: bool)
    requires Merges(zs, [x], [y])
    ensures zs == [x, y] || zs == [y, x]
  {
    var n := |zs| - 1;
    assert [x][..0] == [] && [y][..0] == [];
    assert zs == zs[..n] + [zs[n]];
    OnlyOne(zs[..n], x);
    OnlyOne(zs[..n], y);
  }

  lemma OnlyOne<T>(zs: seq<T>, x: T)
    ensures Merges(zs, [x], []) || Merges(zs, [], [x]) ==> zs == [x]
  {
    if zs != [] && (Merges(zs, [x], []) || Merges(zs, [], [x])) {
      var n := |zs| - 1;
      assert [x][..0] == [];
      assert Merges(zs[..n], [], []);
      assert zs[..n] == [];
    }
  }

  // ----- what they leave -----

  datatype Copies = Copies(window: seq<Sample>, stored: seq<Sample>)

  /** The two samples, and how long they are kept. */
  datatype Pair = Pair(s: Sample, t: Sample, retention: nat) {
    function Of(first: bool): Sample {
      if first then s else t
    }

    function Cutoff(first: bool): int {
      Of(first).at - retention
    }

    /** The start of the live window once both are through; the earlier sample is in it. */
    function Live(): int {
      Cutoff(false)
    }

    predicate Overlaps() {
      Live() <= s.at <= t.at
    }
  }

  function Acted(c: Copies, act: Act, p: Pair): Copies {
    match act
    case Commit(first) => c.(stored := Upsert(c.stored, p.Of(first)))
    case Sweep(first, prunes) => if prunes then c.(stored := Since(c.stored, p.Cutoff(first))) else c
    case Insert(first) => c.(window := Since(c.window + [p.Of(first)], p.Cutoff(first)))
  }

  function Played(c: Copies, acts: seq<Act>, p: Pair): Copies {
    if acts == [] then c else Acted(Played(c, acts[..|acts| - 1], p), acts[|acts| - 1], p)
  }

  /** Samples written to a list one after the other, and appended to it. */
  function Upserted(xs: seq<Sample>, order: seq<bool>, p: Pair): seq<Sample> {
    if order == [] then xs else Upsert(Upserted(xs, order[..|order| - 1], p), p.Of(order[|order| - 1]))
  }

  function Appended(xs: seq<Sample>, order: seq<bool>, p: Pair): seq<Sample> {
    if order == [] then xs else Appended(xs, order[..|order| - 1], p) + [p.Of(order[|order| - 1])]
  }

  /** Writing a live sample and cutting off what is not live commute. */
  lemma {:induction false} SinceUpsert(xs: seq<Sample>, x: Sample, live: int)
    requires StrictlyAscending(xs) && live <= x.at
    ensures Since(Upsert(xs, x), live) == Upsert(Since(xs, live), x)
  {
    if xs != [] {
      var n := |xs| - 1;
      SinceAppend(xs, [x], live);
      SinceAppend(xs[..n], [x], live);
      OneSince(x, live);
      StrictIsAscending(xs);
      SinceAscending(xs, live);
      if x.at < xs[n].at {
        SinceUpsert(xs[..n], x, live);
        SinceAppend(Upsert(xs[..n], x), [xs[n]], live);
        OneSince(xs[n], live);
      }
    }
  }

  lemma OneSince(x: Sample, live: int)
    ensures Since([x], live) == if live <= x.at then [x] else []
  {
    assert [x][..0] == [];
  }

  lemma LiveStore(stored: seq<Sample>, act: Act, p: Pair)
    requires StrictlyAscending(stored) && p.Overlaps()
    ensures var after := Acted(Copies([], stored), act, p).stored;
            && StrictlyAscending(after)
            && Since(after, p.Live()) == if act.Commit? then Upsert(Since(stored, p.Live()), p.Of(act.first))
                                         else Since(stored, p.Live())
  {
    match act
    case Commit(first) =>
      UpsertStrict(stored, p.Of(first));
      SinceUpsert(stored, p.Of(first), p.Live());
    case Sweep(first, _) =>
      SinceStrict(stored, p.Cutoff(first));
      SinceSince(stored, p.Cutoff(first), p.Live());
    case Insert(_) =>
  }

  lemma LiveWindow(window: seq<Sample>, first: bool, p: Pair)
    requires p.Overlaps()
    ensures Since(Since(window + [p.Of(first)], p.Cutoff(first)), p.Live())
         == Since(window, p.Live()) + [p.Of(first)]
  {
    LiveAppend(window, p.Of(first), p.Cutoff(first), p.Live());
  }

  lemma LiveAppend(window: seq<Sample>, x: Sample, cutoff: int, live: int)
    requires cutoff <= live <= x.at
    ensures Since(Since(window + [x], cutoff), live) == Since(window, live) + [x]
  {
    SinceSince(window + [x], cutoff, live);
    SinceAppend(window, [x], live);
    OneSince(x, live);
  }

  /** On the live window the store gets the commits and memory the inserts, each in its own order. */
  lemma {:induction false} LiveParts(c: Copies, acts: seq<Act>, p: Pair)
    requires StrictlyAscending(c.stored) && p.Overlaps()
    ensures var d := Played(c, acts, p);
            && StrictlyAscending(d.stored)
            && Since(d.stored, p.Live()) == Upserted(Since(c.stored, p.Live()), Commits(acts), p)
            && Since(d.window, p.Live()) == Appended(Since(c.window, p.Live()), Inserts(acts), p)
  {
    if acts != [] {
      var n, last := |acts| - 1, acts[|acts| - 1];
      var d := Played(c, acts[..n], p);
      LiveParts(c, acts[..n], p);
      LiveStore(d.stored, last, p);
      if last.Insert? {
        LiveWindow(d.window, last.first, p);
      }
    }
  }

  /** Once the later Record has trimmed memory, only live samples are in it. */
  lemma {:induction false} OnlyLive(c: Copies, acts: seq<Act>, p: Pair)
    requires p.Overlaps() && false in Inserts(acts)
    ensures Since(Played(c, acts, p).window, p.Live()) == Played(c, acts, p).window
  {
    var n, last := |acts| - 1, acts[|acts| - 1];
    var window := Played(c, acts[..n], p).window;
    if last == Insert(false) {
      SinceSince(window + [p.t], p.Live(), p.Live());
    } else {
      OnlyLive(c, acts[..n], p);
      if last.Insert? {
        LiveWindow(window, true, p);
        SinceAppend(window, [p.s], p.Live());
        OneSince(p.s, p.Live());
        SinceSince(window + [p.s], p.Live(), p.Cutoff(true));
      }
    }
  }

  /** The earlier Record goes first. */
  predicate Leads(order: seq<bool>) {
    order != [] && order[0]
  }

  lemma BothAppended(xs: seq<Sample>, first: bool, p: Pair)
    ensures Appended(xs, [first, !first], p) == xs + [p.Of(first)] + [p.Of(!first)]
  {
    assert [first, !first][..1] == [first] && [first][..0] == [];
    assert Appended(xs, [first], p) == xs + [p.Of(first)];
  }

  lemma BothUpserted(xs: seq<Sample>, first: bool, p: Pair)
    ensures Upserted(xs, [first, !first], p) == Upsert(Upsert(xs, p.Of(first)), p.Of(!first))
  {
    assert [first, !first][..1] == [first] && [first][..0] == [];
    assert Upserted(xs, [first], p) == Upsert(xs, p.Of(first));
  }

  /**
    In every interleaving memory ends as its live part with the two samples as they were inserted, and the
    store's live part as it was with the two samples as they were committed.
   */
  lemma PlayedOut(c: Copies, acts: seq<Act>, firstPrunes: bool, secondPrunes: bool, p: Pair)
    requires StrictlyAscending(c.stored) && p.Overlaps() && Interleaves(acts, firstPrunes, secondPrunes)
    ensures var d, x, y := Played(c, acts, p), Leads(Inserts(acts)), Leads(Commits(acts));
            && d.window == Since(c.window, p.Live()) + [p.Of(x)] + [p.Of(!x)]
            && Since(d.stored, p.Live()) == Upsert(Upsert(Since(c.stored, p.Live()), p.Of(y)), p.Of(!y))
  {
    OneOrTheOther(acts, firstPrunes, secondPrunes);
    LiveParts(c, acts, p);
    OnlyLive(c, acts, p);
    BothAppended(Since(c.window, p.Live()), Leads(Inserts(acts)), p);
    BothUpserted(Since(c.stored, p.Live()), Leads(Commits(acts)), p);
  }

  /** The sampler's trim, a binary search, does what the model's does, although the window may be out of order. */
  lemma TrimIsTheSamplers(c: Copies, before: seq<Act>, first: bool, p: Pair, kept: seq<Sample>)
    requires Ascending(c.window) && UpTo(c.window, p.s.at) && p.Overlaps()
    requires Inserts(before) == [] || Inserts(before) == [!first]
    requires PowerSampler.TrimmedTo(Played(c, before, p).window + [p.Of(first)], p.Cutoff(first), kept)
    ensures kept == Played(c, before + [Insert(first)], p).window
  {
    var window := Played(c, before, p).window;
    assert (before + [Insert(first)])[..|before|] == before;
    if Inserts(before) == [false] {
      OnlyLive(c, before, p);
      SinceAppend(window, [p.s], p.Cutoff(true));
      SinceSince(window, p.Live(), p.Cutoff(true));
      OneSince(p.s, p.Cutoff(true));
      LiveOnly(window, p.Live());
    } else {
      InOrderBefore(c, before, p);
      AscendingAppend(window, p.Of(first));
    }
  }

  lemma {:induction false} InOrderBefore(c: Copies, before: seq<Act>, p: Pair)
    requires Ascending(c.window) && UpTo(c.window, p.s.at) && p.Overlaps() && false !in Inserts(before)
    ensures Ascending(Played(c, before, p).window) && UpTo(Played(c, before, p).window, p.s.at)
  {
    if before != [] {
      var n := |before| - 1;
      InOrderBefore(c, before[..n], p);
      if before[n].Insert? {
        assert before[n].first;
        TrimmedInOrder(Played(c, before[..n], p).window, p.s, p.Cutoff(true));
      }
    }
  }

  lemma TrimmedInOrder(window: seq<Sample>, x: Sample, cutoff: int)
    requires Ascending(window) && UpTo(window, x.at)
    ensures Ascending(Since(window + [x], cutoff)) && UpTo(Since(window + [x], cutoff), x.at)
  {
    AscendingAppend(window, x);
    SinceAscending(window + [x], cutoff);
  }

  lemma {:induction false} LiveOnly(xs: seq<Sample>, live: int)
    requires Since(xs, live) == xs
    ensures forall i :: 0 <= i < |xs| ==> live <= xs[i].at
  {
    if xs != [] {
      var n := |xs| - 1;
      SinceShorter(xs[..n], live);
      assert xs[n].at >= live;
      assert Since(xs, live)[..n] == Since(xs[..n], live);
      LiveOnly(xs[..n], live);
    }
  }

  lemma {:induction false} SinceShorter(xs: seq<Sample>, live: int)
    ensures |Since(xs, live)| <= |xs|
  {
    if xs != [] {
      SinceShorter(xs[..|xs| - 1], live);
    }
  }

  // ----- the two copies -----

  /** Memory and store before the two Records: sorted, nothing later than the clocks they read, one live history. */
  ghost predicate Ready(c: Copies, p: Pair) {
    && Ascending(c.window) && StrictlyAscending(c.stored) && p.Overlaps()
    && UpTo(c.window, p.s.at) && UpTo(c.stored, p.s.at)
    && SameSteps(Since(c.stored, p.Live()), Since(c.window, p.Live()))
  }

  /** Inserting in the wrong order leaves memory out of order, unless the two clocks read the same. */
  lemma OutOfOrderIff(xs: seq<Sample>, s: Sample, t: Sample)
    requires Ascending(xs) && UpTo(xs, s.at) && s.at <= t.at
    ensures Ascending(xs + [t] + [s]) <==> s.at == t.at
    ensures Ascending(xs + [s] + [t])
  {
    AscendingAppend(xs, t);
    AscendingAppend(xs + [t], s);
    AscendingAppend(xs, s);
    AscendingAppend(xs + [s], t);
  }

  /** And it tells another history, unless the two samples are the same. */
  lemma SwappedHistoryIff(xs: seq<Sample>, s: Sample, t: Sample)
    requires s.at <= t.at
    ensures SameSteps(xs + [t] + [s], xs + [s] + [t]) <==> s == t
  {
    assert StateAt(xs + [t] + [s], t.at) == Some(s);
    assert StateAt(xs + [s] + [t], t.at) == Some(t);
  }

  /** One commit on top of a history. */
  lemma CommitOnTop(stored: seq<Sample>, xs: seq<Sample>, x: Sample)
    requires StrictlyAscending(stored) && SameSteps(stored, xs) && UpTo(stored, x.at)
    ensures StrictlyAscending(Upsert(stored, x)) && SameSteps(Upsert(stored, x), xs + [x])
    ensures UpTo(Upsert(stored, x), x.at)
  {
    UpsertStrict(stored, x);
    UpsertAtTheEnd(stored, x);
    SameStepsAppend(stored, xs, x);
  }

  /** The store sorts by clock; only equal clocks let the later commit win. */
  lemma StoreAfterBoth(xs: seq<Sample>, stored: seq<Sample>, commitFirst: bool, p: Pair)
    requires StrictlyAscending(stored) && SameSteps(stored, xs) && UpTo(stored, p.s.at) && p.s.at <= p.t.at
    ensures var x, y := p.Of(commitFirst), p.Of(!commitFirst);
            var u, v := if p.s.at < p.t.at then p.s else x, if p.s.at < p.t.at then p.t else y;
            SameSteps(Upsert(Upsert(stored, x), y), xs + [u] + [v])
  {
    var x, y := p.Of(commitFirst), p.Of(!commitFirst);
    if commitFirst || p.s.at == p.t.at {
      CommitOnTop(stored, xs, x);
      CommitOnTop(Upsert(stored, x), xs + [x], y);
    } else {
      LaterFirst(stored, p.s, p.t);
      CommitOnTop(stored, xs, p.s);
      CommitOnTop(Upsert(stored, p.s), xs + [p.s], p.t);
    }
  }

  /** Committing the later sample first leaves the same bucket. */
  lemma LaterFirst(stored: seq<Sample>, s: Sample, t: Sample)
    requires UpTo(stored, s.at) && s.at < t.at
    ensures Upsert(Upsert(stored, t), s) == Upsert(Upsert(stored, s), t)
  {
    assert Upsert(stored, t) == stored + [t];
    assert (stored + [t])[..|stored|] == stored;
    assert Upsert(stored, s)[|Upsert(stored, s)| - 1] == s;
  }

  /**
    For every interleaving, with whatever prunes: memory and store end up telling the same history on the live
    window exactly when the inserts come in clock order, or, the clocks being equal, in the order of the
    commits (or the samples are the same).
   */
  lemma CopiesAgreeIff(c: Copies, acts: seq<Act>, firstPrunes: bool, secondPrunes: bool, p: Pair)
    requires Ready(c, p) && Interleaves(acts, firstPrunes, secondPrunes)
    ensures SameSteps(Played(c, acts, p).window, Since(Played(c, acts, p).stored, p.Live()))
       <==> p.s == p.t ||
            (if p.s.at < p.t.at then Leads(Inserts(acts)) else Inserts(acts) == Commits(acts))
  {
    var xs, stored := Since(c.window, p.Live()), Since(c.stored, p.Live());
    OneOrTheOther(acts, firstPrunes, secondPrunes);
    PlayedOut(c, acts, firstPrunes, secondPrunes, p);
    SinceStrict(c.stored, p.Live());
    StrictIsAscending(c.stored);
    SinceAscending(c.stored, p.Live());
    StoreAfterBoth(xs, stored, Leads(Commits(acts)), p);
    SwappedHistoryIff(xs, p.s, p.t);
    if p.s.at == p.t.at {
      SwappedHistoryIff(xs, p.t, p.s);
    }
  }
}
