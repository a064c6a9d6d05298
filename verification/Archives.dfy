/**
  Samples by key: what memory holds, and what the store holds once its bytes are decoded.  The runs are
  stated over these; `StoreRefinement` shows that the byte-level store behaves like them.
 */
module Archives {
  import opened Common
  import opened Samples

  type Archive = map<string, seq<Sample>>

  function ListOf(archive: Archive, key: string): seq<Sample> {
    if key in archive then archive[key] else []
  }

  /** Memory after a sample has been appended and its key trimmed to the cut-off. */
  function Inserted(memory: Archive, key: string, s: Sample, cutoff: int): Archive {
    memory[key := Since(ListOf(memory, key) + [s], cutoff)]
  }

  const PRUNE_INTERVAL: int := 15 * 60_000_000_000

  /** A prune runs at most once per interval. */
  predicate PruneDue(lastPrune: Option<int>, now: int) {
    lastPrune.None? || now - lastPrune.value >= PRUNE_INTERVAL
  }

  /** Inserts a sample at its place in time order, replacing one of the same instant. */
  function Upsert(xs: seq<Sample>, s: Sample): seq<Sample> {
    if xs == [] then [s]
    else
      var n := |xs| - 1;
      if xs[n].at < s.at then xs + [s]
      else if xs[n].at == s.at then xs[..n] + [s]
      else Upsert(xs[..n], s) + [xs[n]]
  }

  /** The members of a list in [start, end). */
  function Within(xs: seq<Sample>, start: int, end: Option<int>): seq<Sample> {
    if xs == [] then []
    else
      var rest := Within(xs[..|xs| - 1], start, end);
      var last := xs[|xs| - 1];
      if start <= last.at && (end.None? || last.at < end.value) then rest + [last] else rest
  }

  function Filed(archive: Archive, key: string, s: Sample): Archive {
    archive[key := Upsert(ListOf(archive, key), s)]
  }

  function TrimmedAll(archive: Archive, cutoff: int): Archive {
    map key | key in archive :: Since(archive[key], cutoff)
  }

  /** What a restart loads: the samples in [cutoff, now) of every key. */
  function LoadedAll(archive: Archive, cutoff: int, now: int): Archive {
    map key | key in archive :: Within(archive[key], cutoff, Some(now))
  }

  // ----- inserting -----

  lemma {:induction false} UpsertStrict(xs: seq<Sample>, s: Sample)
    requires StrictlyAscending(xs)
    ensures StrictlyAscending(Upsert(xs, s)) && Upsert(xs, s) != []
    ensures Upsert(xs, s)[|Upsert(xs, s)| - 1].at == if xs == [] then s.at else Max(s.at, xs[|xs| - 1].at)
  {
    if xs != [] {
      var n := |xs| - 1;
      if xs[n].at < s.at {
        assert (xs + [s])[..|xs|] == xs;
      } else if xs[n].at == s.at {
        assert (xs[..n] + [s])[..n] == xs[..n];
      } else {
        UpsertStrict(xs[..n], s);
        var ys := Upsert(xs[..n], s);
        assert (ys + [xs[n]])[..|ys|] == ys;
      }
    }
  }

  /** The new sample is there, and only a sample of the same instant is lost. */
  lemma {:induction false} UpsertMembers(xs: seq<Sample>, s: Sample, x: Sample)
    requires StrictlyAscending(xs)
    ensures x in Upsert(xs, s) <==> x == s || (x in xs && x.at != s.at)
  {
    if xs != [] {
      var n := |xs| - 1;
      assert xs == xs[..n] + [xs[n]];
      MembersBelowLast(xs, x);
      if s.at < xs[n].at {
        UpsertMembers(xs[..n], s, x);
      }
    }
  }

  lemma MembersBelowLast(xs: seq<Sample>, x: Sample)
    requires StrictlyAscending(xs) && xs != []
    ensures x in xs[..|xs| - 1] ==> x.at < xs[|xs| - 1].at
  {
  }

  /** Inserting in time order adds one step at the end. */
  lemma UpsertAtTheEnd(xs: seq<Sample>, s: Sample)
    requires xs != [] ==> xs[|xs| - 1].at <= s.at
    ensures SameSteps(Upsert(xs, s), xs + [s])
  {
  }

  // ----- reading -----

  lemma {:induction false} WithinMembers(xs: seq<Sample>, start: int, end: Option<int>, x: Sample)
    ensures x in Within(xs, start, end) <==> x in xs && start <= x.at && (end.Some? ==> x.at < end.value)
  {
    if xs != [] {
      var n := |xs| - 1;
      WithinMembers(xs[..n], start, end, x);
      assert xs == xs[..n] + [xs[n]];
    }
  }

  /** A read up to `end` equals a read without bound exactly when nothing retained lies at or after `end`. */
  lemma {:induction false} WithinVersusSince(xs: seq<Sample>, start: int, end: int)
    ensures Within(xs, start, Some(end)) == Since(xs, start)
       <==> forall i :: 0 <= i < |xs| && start <= xs[i].at ==> xs[i].at < end
    ensures |Within(xs, start, Some(end))| <= |Since(xs, start)|
  {
    if xs != [] {
      var n := |xs| - 1;
      WithinVersusSince(xs[..n], start, end);
      var w, c := Within(xs[..n], start, Some(end)), Since(xs[..n], start);
      assert forall i :: 0 <= i < n ==> xs[..n][i] == xs[i];
      assert w + [xs[n]] == c + [xs[n]] ==> w == c by {
        assert (w + [xs[n]])[..|w|] == w && (c + [xs[n]])[..|c|] == c;
      }
    }
  }
}
