/**
  The byte-level store behaves like the archive of samples it encodes, from the epoch on: appending,
  pruning, reading and hydrating commute with decoding.
 */
module StoreRefinement {
  import opened Common
  import opened Samples
  import opened Archives
  import ByteKeys
  import opened Buckets
  import opened SampleStore
  import PowerSampler
  import opened Protocol
  import SamplerRuns

  /** The bytes of one key are those that writing its stored samples leaves. */
  ghost predicate DecodesAt(db: Db, stored: Archive, key: string) {
    && (key in db <==> key in stored)
    && (key in db ==> Chronological(db[key]) && View(db[key]) == stored[key])
  }

  ghost predicate Decodes(db: Db, stored: Archive) {
    forall key :: DecodesAt(db, stored, key)
  }

  lemma AppendRefines(db: Db, stored: Archive, written: string, s: Sample, key: string)
    requires DecodesAt(db, stored, key) && ByteKeys.InEpoch(s.at)
    ensures DecodesAt(Appended(db, written, s), Filed(stored, written, s), key)
  {
    if key == written {
      BucketWrite(BucketOf(db, key), s);
    }
  }

  lemma BucketWrite(b: Bucket, s: Sample)
    requires Chronological(b) && ByteKeys.InEpoch(s.at)
    ensures Chronological(WithSample(b, s)) && View(WithSample(b, s)) == Upsert(View(b), s)
  {
    WrittenIsChronological(b, s);
    WrittenIsFiled(b, s);
  }

  lemma PruneRefines(db: Db, stored: Archive, cutoff: int, key: string)
    requires DecodesAt(db, stored, key) && ByteKeys.InEpoch(cutoff)
    ensures DecodesAt(Pruned(db, cutoff), TrimmedAll(stored, cutoff), key)
  {
    if key in db {
      KeptIsChronological(db[key], cutoff);
      KeptIsSince(db[key], cutoff);
    }
  }

  /** Reading a key back for hydration finds no damaged value, and yields the samples of the window. */
  lemma LoadRefines(db: Db, stored: Archive, cutoff: int, now: int, key: string)
    requires DecodesAt(db, stored, key) && key in db && ByteKeys.InEpoch(cutoff) && ByteKeys.InEpoch(now)
    ensures Intact(Range(db[key], cutoff, Some(now)))
    ensures View(Range(db[key], cutoff, Some(now))) == Within(stored[key], cutoff, Some(now))
  {
    RangeIsIntact(db[key], cutoff, Some(now));
    RangeIsWithin(db[key], cutoff, Some(now));
  }

  // ----- runs -----

  /** What a step does to the database file. */
  function NextDb(db: Db, s: State, step: Step): Db
    requires Enabled(s, step)
  {
    if step.Append? && step.commits then Appended(db, step.key, s.flights[step.key].sample)
    else if PruneCut(s, step).Some? then Pruned(db, PruneCut(s, step).value)
    else db
  }

  function RunDb(db: Db, s: State, steps: seq<Step>): Db
    requires Run(s, steps).Some?
  {
    if steps == [] then db
    else
      var n := |steps| - 1;
      NextDb(RunDb(db, s, steps[..n]), Run(s, steps[..n]).value, steps[n])
  }

  lemma StepRefines(db: Db, s: State, step: Step, key: string)
    requires Inv(s) && DecodesAt(db, s.stored, key) && Enabled(s, step)
    ensures DecodesAt(NextDb(db, s, step), Next(s, step).stored, key)
  {
    CutIsLive(s, step);
    if step.Append? && step.commits {
      assert Sound(KeyAt(s, step.key), s.clock, s.retention);
      AppendRefines(db, s.stored, step.key, s.flights[step.key].sample, key);
    } else if PruneCut(s, step).Some? {
      PruneRefines(db, s.stored, PruneCut(s, step).value, key);
    }
  }

  lemma {:induction false} KeyRunRefines(db: Db, s: State, steps: seq<Step>, key: string)
    requires Inv(s) && DecodesAt(db, s.stored, key) && Run(s, steps).Some?
    ensures DecodesAt(RunDb(db, s, steps), Run(s, steps).value.stored, key)
  {
    if steps != [] {
      var n := |steps| - 1;
      KeyRunRefines(db, s, steps[..n], key);
      RunKeepsInv(s, steps[..n]);
      StepRefines(RunDb(db, s, steps[..n]), Run(s, steps[..n]).value, steps[n], key);
    }
  }

  /** Along every run the bytes on disk decode to the stored samples of the run. */
  lemma RunRefines(db: Db, s: State, steps: seq<Step>)
    requires Inv(s) && Decodes(db, s.stored) && Run(s, steps).Some?
    ensures Decodes(RunDb(db, s, steps), Run(s, steps).value.stored)
  {
    forall key ensures DecodesAt(RunDb(db, s, steps), Run(s, steps).value.stored, key) {
      assert DecodesAt(db, s.stored, key);
      KeyRunRefines(db, s, steps, key);
    }
  }

  /** A process that starts on those bytes hydrates without error, and to the memory of the run. */
  lemma RestartRefines(db: Db, s: State, now: int)
    requires Decodes(db, s.stored) && Enabled(s, Restart(now))
    requires ByteKeys.InEpoch(now) && ByteKeys.InEpoch(now - s.retention)
    ensures PowerSampler.Readable(db, now - s.retention, now)
    ensures PowerSampler.Hydrated(db, now - s.retention, now) == Next(s, Restart(now)).memory
  {
    HydrateRefines(db, s.stored, now - s.retention, now);
  }

  lemma HydrateRefines(db: Db, stored: Archive, cutoff: int, now: int)
    requires Decodes(db, stored) && ByteKeys.InEpoch(cutoff) && ByteKeys.InEpoch(now)
    ensures PowerSampler.Readable(db, cutoff, now)
    ensures PowerSampler.Hydrated(db, cutoff, now) == LoadedAll(stored, cutoff, now)
  {
    forall key ensures key in db <==> key in stored
      ensures key in db ==> Intact(Range(db[key], cutoff, Some(now)))
      ensures key in db ==> View(Range(db[key], cutoff, Some(now))) == Within(stored[key], cutoff, Some(now))
    {
      assert DecodesAt(db, stored, key);
      if key in db {
        LoadRefines(db, stored, cutoff, now, key);
      }
    }
  }

  /** What the sampler's Record leaves on disk decodes to what the Record of a run (`AfterRecord`) leaves stored. */
  lemma RecordRefines(db: Db, stored: Archive, written: string, sample: Sample, prune: bool, cutoff: int, key: string)
    requires DecodesAt(db, stored, key) && ByteKeys.InEpoch(sample.at) && ByteKeys.InEpoch(cutoff)
    ensures DecodesAt(PowerSampler.PrunedIf(Appended(db, written, sample), prune, cutoff),
                      SamplerRuns.WrittenThrough(stored, written, sample, prune, cutoff), key)
  {
    AppendRefines(db, stored, written, sample, key);
    if prune {
      PruneRefines(Appended(db, written, sample), Filed(stored, written, sample), cutoff, key);
    }
  }

  /** The clock of a sound state is at or after the key's last sample, so a Record keeps its window in time order. */
  lemma RecordKeepsOrder(s: State, key: string, sample: Sample)
    requires Inv(s) && key !in s.flights && sample.at == s.clock
    ensures Ascending(ListOf(s.memory, key) + [sample])
  {
    var k := KeyAt(s, key);
    assert Sound(k, s.clock, s.retention) && k.Settled() == k.log;
    HoldsUpTo(k.window, k.log, s.clock - s.retention, s.clock);
    AscendingAppend(k.window, sample);
  }

  /** What is written can be read back: the sample is there, and nothing else of the key has changed. */
  lemma AppendThenLoad(db: Db, key: string, s: Sample, start: int, end: Option<int>, x: Sample)
    requires Chronological(BucketOf(db, key)) && ByteKeys.InEpoch(s.at)
    requires ByteKeys.InEpoch(start) && (end.Some? ==> ByteKeys.InEpoch(end.value))
    ensures x in View(Range(BucketOf(Appended(db, key, s), key), start, end)) <==>
            && (x == s || (x in View(BucketOf(db, key)) && x.at != s.at))
            && start <= x.at && (end.Some? ==> x.at < end.value)
  {
    var b := BucketOf(db, key);
    WrittenIsChronological(b, s);
    WrittenIsFiled(b, s);
    RangeIsWithin(Written(b, s), start, end);
    ViewIsChronological(b);
    UpsertMembers(View(b), s, x);
    WithinMembers(View(Written(b, s)), start, end, x);
  }
}
