/**
  The sampler: a window of samples per profile in memory, written through to the store when there is
  one.  The clock and the fate of each write transaction are parameters.
 */
module PowerSampler {
  import opened Common
  import opened Samples
  import opened Archives
  import Windows
  import Buckets
  import opened SampleStore

  function PrunedIf(db: Db, prune: bool, cutoff: int): Db {
    if prune then Pruned(db, cutoff) else db
  }

  /** Archive rebuilt from the database at a restart. */
  function Hydrated(db: Db, cutoff: int, now: int): Archive {
    map key | key in db :: Buckets.View(Buckets.Range(db[key], cutoff, Some(now)))
  }

  ghost predicate Readable(db: Db, cutoff: int, now: int) {
    forall key :: key in db ==> Buckets.Intact(Buckets.Range(db[key], cutoff, Some(now)))
  }

  ghost predicate LoadedFrom(db: Db, key: string, cutoff: int, now: int, window: seq<Sample>)
    requires key in db
  {
    var range := Buckets.Range(db[key], cutoff, Some(now));
    Buckets.Intact(range) && window == Buckets.View(range)
  }

  class Sampler {
    const retention: int
    const store: Store?
    var samples: Archive
    var lastPrune: Option<int>

    constructor (retention: int, store: Store?)
      ensures this.retention == retention && this.store == store
      ensures samples == map[] && lastPrune == None
    {
      this.retention, this.store := retention, store;
      samples, lastPrune := map[], None;
    }

    /**
      Records one observation.  A failed append changes nothing.  Otherwise the store has the sample,
      less what a due and committed prune removes, and so has the key's window, trimmed to the
      retention when it was in time order; no other key's window is touched.
     */
    method Record(key: string, powerW: Float64, activeW: Float64, now: int, appends: bool, prunes: bool)
      returns (ok: bool)
      modifies this`samples, this`lastPrune
      modifies if store == null then {} else {store}
      ensures ok <==> store == null || (old(store.isOpen) && appends)
      ensures !ok ==> samples == old(samples) && lastPrune == old(lastPrune)
      ensures store != null ==> store.isOpen == old(store.isOpen)
      ensures store != null && !ok ==> store.db == old(store.db)
      ensures store == null ==> lastPrune == old(lastPrune)
      ensures store != null && ok ==>
                var due := PruneDue(old(lastPrune), now);
                var appended := Appended(old(store.db), key, Sample(now, powerW, activeW));
                && store.db == PrunedIf(appended, due && prunes, now - retention)
                && lastPrune == (if due then Some(now) else old(lastPrune))
      ensures ok && Ascending(ListOf(old(samples), key) + [Sample(now, powerW, activeW)]) ==>
                samples == Inserted(old(samples), key, Sample(now, powerW, activeW), now - retention)
      ensures ok ==> samples.Keys == old(samples).Keys + {key}
      ensures ok ==> forall k :: k in old(samples) && k != key ==> samples[k] == old(samples)[k]
    {
      var sample := Sample(now, powerW, activeW);
      ok := Persist(key, sample, appends, prunes);
      if ok {
        Remember(key, sample);
        OneWindowMore(old(samples), samples, key, sample, now - retention);
      }
    }

    method Persist(key: string, sample: Sample, appends: bool, prunes: bool) returns (ok: bool)
      modifies this`lastPrune
      modifies if store == null then {} else {store}
      ensures ok <==> store == null || (old(store.isOpen) && appends)
      ensures store == null || !ok ==> lastPrune == old(lastPrune)
      ensures store != null ==> store.isOpen == old(store.isOpen)
      ensures store != null && !ok ==> store.db == old(store.db)
      ensures store != null && ok ==>
                store.db == PrunedIf(Appended(old(store.db), key, sample),
                                     PruneDue(old(lastPrune), sample.at) && prunes, sample.at - retention)
      ensures store != null && ok ==>
                lastPrune == if PruneDue(old(lastPrune), sample.at) then Some(sample.at) else old(lastPrune)
    {
      if store == null {
        return true;
      }
      ok := WriteThrough(store, key, sample, appends, prunes);
    }

    /** The append, and the prune that may follow it. */
    method WriteThrough(store: Store, key: string, sample: Sample, appends: bool, prunes: bool) returns (ok: bool)
      requires this.store == store
      modifies this`lastPrune, store`db
      ensures ok <==> store.isOpen && appends
      ensures !ok ==> lastPrune == old(lastPrune) && store.db == old(store.db)
      ensures ok ==> lastPrune == if PruneDue(old(lastPrune), sample.at) then Some(sample.at) else old(lastPrune)
      ensures ok ==> store.db == PrunedIf(Appended(old(store.db), key, sample),
                                          PruneDue(old(lastPrune), sample.at) && prunes, sample.at - retention)
    {
      ok := store.Append(key, sample, appends);
      if ok {
        PruneStore(sample.at, prunes);
      }
    }

    method Remember(key: string, sample: Sample)
      modifies this`samples
      ensures key in samples && samples == old(samples)[key := samples[key]]
      ensures TrimmedTo(ListOf(old(samples), key) + [sample], sample.at - retention, samples[key])
    {
      var window := ListOf(samples, key) + [sample];
      samples := samples[key := window];
      Gc(key, sample.at);
    }

    /** Prunes the store at most once per interval; the attempt counts even when it fails. */
    method PruneStore(now: int, commits: bool)
      modifies this`lastPrune
      modifies (if store == null then {} else {store})`db
      ensures lastPrune == if store != null && PruneDue(old(lastPrune), now) then Some(now) else old(lastPrune)
      ensures store != null ==> store.isOpen == old(store.isOpen)
      ensures store != null ==>
                store.db == PrunedIf(old(store.db), PruneDue(old(lastPrune), now) && store.isOpen && commits,
                                     now - retention)
    {
      if store == null {
        return;
      }
      if lastPrune.Some? && now - lastPrune.value < PRUNE_INTERVAL {
        return;
      }
      lastPrune := Some(now);
      var _ := store.Prune(now - retention, commits);
    }

    /** Drops the key's samples from before the retention window. */
    method Gc(key: string, now: int)
      requires key in samples
      modifies this`samples
      ensures key in samples && samples == old(samples)[key := samples[key]]
      ensures TrimmedTo(old(samples)[key], now - retention, samples[key])
    {
      var kept := Trim(samples[key], now - retention);
      samples := samples[key := kept];
    }

    /** Integrates the key's samples over [start, end). */
    method Summarize(key: string, start: int, end: int) returns (summary: Windows.WindowSummary)
      ensures summary == Windows.Measure(ListOf(samples, key), start, end)
    {
      var window := ListOf(samples, key);
      summary := Windows.NO_DATA;
      for i := 0 to |window|
        invariant summary == Windows.Progress(window, i, start, end)
      {
        var sample := window[i];
        var nextAt := if i + 1 < |window| then window[i + 1].at else end;
        var intervalStart := if sample.at < start then start else sample.at;
        var intervalEnd := if end < nextAt then end else nextAt;
        if intervalEnd <= intervalStart {
          continue;
        }
        summary := AddInterval(summary, sample, intervalStart, intervalEnd);
      }
    }

    /** Rebuilds memory from the store; fails when the store is closed or holds a value it cannot decode. */
    method Hydrate(now: int) returns (ok: bool)
      requires samples == map[]
      modifies this`samples
      ensures store == null ==> ok && samples == map[]
      ensures store != null ==> (ok <==> store.isOpen && Readable(store.db, now - retention, now))
      ensures store != null && ok ==> samples == Hydrated(store.db, now - retention, now)
    {
      if store == null {
        return true;
      }
      var loaded;
      ok, loaded := LoadStore(store, now - retention, now);
      if ok {
        samples := loaded;
      }
    }

    /** A sampler over a store starts from what the store retains, or not at all. */
    static method NewSamplerWithStore(retention: int, store: Store, now: int) returns (s: Sampler, ok: bool)
      ensures ok <==> store.isOpen && Readable(store.db, now - retention, now)
      ensures ok ==> s.samples == Hydrated(store.db, now - retention, now)
      ensures s.retention == retention && s.store == store && s.lastPrune == None
    {
      s := new Sampler(retention, store);
      ok := s.Hydrate(now);
    }
  }

  /** Exactly the keys seen so far are loaded, each with its readable samples. */
  ghost predicate LoadedSoFar(db: Db, keys: seq<string>, cutoff: int, now: int, loaded: Archive) {
    forall k :: LoadedKey(db, keys, cutoff, now, loaded, k)
  }

  ghost predicate LoadedKey(db: Db, keys: seq<string>, cutoff: int, now: int, loaded: Archive, key: string) {
    && (key in loaded <==> key in keys)
    && (key in loaded ==> key in db && LoadedFrom(db, key, cutoff, now, loaded[key]))
  }

  lemma OneKeyMore(db: Db, keys: seq<string>, n: nat, cutoff: int, now: int, loaded: Archive, window: seq<Sample>)
    requires n < |keys| && LoadedSoFar(db, keys[..n], cutoff, now, loaded)
    requires keys[n] in db && LoadedFrom(db, keys[n], cutoff, now, window)
    ensures LoadedSoFar(db, keys[..n + 1], cutoff, now, loaded[keys[n] := window])
  {
    var seen, more := keys[..n + 1], loaded[keys[n] := window];
    assert seen == keys[..n] + [keys[n]];
    forall k ensures LoadedKey(db, seen, cutoff, now, more, k) {
      assert LoadedKey(db, keys[..n], cutoff, now, loaded, k);
    }
  }

  lemma AllKeysLoaded(db: Db, keys: seq<string>, cutoff: int, now: int, loaded: Archive)
    requires LoadedSoFar(db, keys, cutoff, now, loaded) && forall k :: k in keys <==> k in db
    ensures Readable(db, cutoff, now) && loaded == Hydrated(db, cutoff, now)
  {
    forall k ensures k in loaded <==> k in db
      ensures k in loaded ==> LoadedFrom(db, k, cutoff, now, loaded[k])
    {
      assert LoadedKey(db, keys, cutoff, now, loaded, k);
    }
  }

  /** Loads the keys one by one and gives up at the first that cannot be read. */
  method LoadKeys(store: Store, keys: seq<string>, cutoff: int, now: int) returns (ok: bool, loaded: Archive)
    requires store.isOpen && forall k :: k in keys <==> k in store.db
    ensures ok <==> Readable(store.db, cutoff, now)
    ensures ok ==> loaded == Hydrated(store.db, cutoff, now)
  {
    loaded := map[];
    for n := 0 to |keys|
      invariant LoadedSoFar(store.db, keys[..n], cutoff, now, loaded)
    {
      assert keys[n] in keys;
      var r := store.LoadRange(keys[n], cutoff, Some(now));
      if r.Failure? {
        return false, loaded;
      }
      OneKeyMore(store.db, keys, n, cutoff, now, loaded, r.value);
      loaded := loaded[keys[n] := r.value];
    }
    assert keys[..|keys|] == keys;
    AllKeysLoaded(store.db, keys, cutoff, now, loaded);
    return true, loaded;
  }

  /** Loads what the store retains, if the store can be read. */
  method LoadStore(store: Store, cutoff: int, now: int) returns (ok: bool, loaded: Archive)
    ensures ok <==> store.isOpen && Readable(store.db, cutoff, now)
    ensures ok ==> loaded == Hydrated(store.db, cutoff, now)
  {
    var keys := store.Keys();
    if keys.Failure? {
      return false, map[];
    }
    ok, loaded := LoadKeys(store, keys.value, cutoff, now);
  }

  /** Credits one non-empty interval of a sample to the running summary. */
  method AddInterval(before: Windows.WindowSummary, sample: Sample, from: int, to: int)
    returns (after: Windows.WindowSummary)
    requires from < to
    ensures after == Windows.Credited(before, sample, from, to)
  {
    var hours := (to - from) as real / 1_000_000_000.0 / 3600.0;
    var energyKWh := sample.powerW.Value() * hours / 1000.0;
    Windows.LoopUnits(sample.powerW.Value(), to - from);
    after := before.(totalHours := before.totalHours + hours,
                     totalEnergyKWh := before.totalEnergyKWh + energyKWh);
    if sample.powerW.Value() > sample.activeW.Value() {
      after := after.(activeHours := after.activeHours + hours,
                      activeEnergyKWh := after.activeEnergyKWh + energyKWh);
    }
  }

  /** A window has been extended and trimmed in memory, the others left alone. */
  lemma OneWindowMore(before: Archive, after: Archive, key: string, sample: Sample, cutoff: int)
    requires key in after && after == before[key := after[key]]
    requires TrimmedTo(ListOf(before, key) + [sample], cutoff, after[key])
    ensures Ascending(ListOf(before, key) + [sample]) ==> after == Inserted(before, key, sample, cutoff)
    ensures after.Keys == before.Keys + {key}
    ensures forall k :: k in before && k != key ==> after[k] == before[k]
  {
  }

  /**
    What trimming leaves: exactly the samples since the cut-off, for a window in time order; and all of any
    window whose first sample is not before it.
   */
  ghost predicate TrimmedTo(window: seq<Sample>, cutoff: int, kept: seq<Sample>) {
    && (Ascending(window) ==> kept == Since(window, cutoff))
    && (window != [] && cutoff <= window[0].at ==> kept == window)
  }

  method Trim(window: seq<Sample>, cutoff: int) returns (kept: seq<Sample>)
    ensures TrimmedTo(window, cutoff, kept)
  {
    if window == [] || cutoff <= window[0].at {
      if Ascending(window) {
        AllSince(window, cutoff);
      }
      return window;
    }
    var idx := FirstNotBefore(window, cutoff);
    if Ascending(window) {
      SinceIsSuffix(window, cutoff, idx);
    }
    return window[idx..];
  }

  /** The library's binary search for the first sample not before the cut-off. */
  method FirstNotBefore(xs: seq<Sample>, cutoff: int) returns (idx: nat)
    ensures idx <= |xs|
    ensures Ascending(xs) ==>
              (forall j :: 0 <= j < idx ==> xs[j].at < cutoff) && (forall j :: idx <= j < |xs| ==> cutoff <= xs[j].at)
  {
    var i, j := 0, |xs|;
    while i < j
      invariant i <= j <= |xs|
      invariant Ascending(xs) ==> forall k :: 0 <= k < i ==> xs[k].at < cutoff
      invariant Ascending(xs) ==> forall k :: j <= k < |xs| ==> cutoff <= xs[k].at
    {
      var h := (i + j) / 2;
      if Ascending(xs) {
        forall k | 0 <= k < |xs| ensures (k <= h ==> xs[k].at <= xs[h].at) && (h <= k ==> xs[h].at <= xs[k].at) {
          AscendingPair(xs, Min(k, h), Max(k, h));
        }
      }
      if xs[h].at < cutoff {
        i := h + 1;
      } else {
        j := h;
      }
    }
    return i;
  }
}
