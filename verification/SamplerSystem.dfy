/**
  The objects and the runs together: a sampler over its store, driven by reconciles and restarts, moves
  in step with the protocol, so everything proved about runs holds of the code's own state.
 */
module SamplerSystem {
  import opened Common
  import opened Samples
  import opened Archives
  import Windows
  import ByteKeys
  import SampleStore
  import PowerSampler
  import opened Protocol
  import SamplerRuns
  import StoreRefinement

  /** Between Records, memory, the last prune and the file are those of a state. */
  ghost predicate Matches(samples: Archive, lastPrune: Option<int>, db: SampleStore.Db, s: State) {
    samples == s.memory && lastPrune == s.lastPrune && s.flights == map[] && StoreRefinement.Decodes(db, s.stored)
  }

  /** A sampler over its open store, in step with a state of the protocol. */
  ghost predicate InStep(sampler: PowerSampler.Sampler, store: SampleStore.Store, s: State)
    reads sampler, store
  {
    && sampler.store == store && store.isOpen && sampler.retention == s.retention
    && Matches(sampler.samples, sampler.lastPrune, store.db, s)
  }

  /** The state in which a Record at `now` finds the system. */
  function At(s: State, now: int): State {
    s.(clock := now)
  }

  lemma ClockMoves(s: State, now: int)
    requires Inv(s) && s.flights == map[] && s.clock <= now && ByteKeys.InEpoch(now)
    ensures Inv(At(s, now))
  {
    StepKeepsInv(s, Tick(now));
  }

  lemma RecordKeepsInv(s: State, key: string, sample: Sample, prunes: bool)
    requires Inv(s) && s.flights == map[] && sample.at == s.clock
    ensures Inv(SamplerRuns.AfterRecord(s, key, sample, prunes))
  {
    var steps := SamplerRuns.RecordSteps(key, sample.powerW, sample.activeW, prunes);
    SamplerRuns.RecordIsItsSteps(s, key, sample.powerW, sample.activeW, prunes);
    assert Sample(s.clock, sample.powerW, sample.activeW) == sample;
    RunKeepsInv(s, steps);
  }

  lemma DecodedAfterRecord(db: SampleStore.Db, stored: Archive, key: string, sample: Sample, prune: bool, cutoff: int)
    requires StoreRefinement.Decodes(db, stored) && ByteKeys.InEpoch(sample.at) && ByteKeys.InEpoch(cutoff)
    ensures StoreRefinement.Decodes(PowerSampler.PrunedIf(SampleStore.Appended(db, key, sample), prune, cutoff),
        SamplerRuns.WrittenThrough(stored, key, sample, prune, cutoff))
  {
    var after, left := PowerSampler.PrunedIf(SampleStore.Appended(db, key, sample), prune, cutoff),
        SamplerRuns.WrittenThrough(stored, key, sample, prune, cutoff);
    forall k ensures StoreRefinement.DecodesAt(after, left, k) {
      assert StoreRefinement.DecodesAt(db, stored, k);
      StoreRefinement.RecordRefines(db, stored, key, sample, prune, cutoff, k);
    }
  }

  /** A committed Record leads from one matching state to the next. */
  lemma RecordMatches(samples: Archive, lastPrune: Option<int>, db: SampleStore.Db, s: State, key: string,
                      sample: Sample, prunes: bool)
    requires Inv(s) && Matches(samples, lastPrune, db, s) && sample.at == s.clock
    ensures Ascending(ListOf(samples, key) + [sample])
    ensures Inv(SamplerRuns.AfterRecord(s, key, sample, prunes))
    ensures Matches(Inserted(samples, key, sample, sample.at - s.retention),
                    if PruneDue(lastPrune, sample.at) then Some(sample.at) else lastPrune,
                    PowerSampler.PrunedIf(SampleStore.Appended(db, key, sample),
                             PruneDue(lastPrune, sample.at) && prunes, sample.at - s.retention),
                    SamplerRuns.AfterRecord(s, key, sample, prunes))
  {
    StoreRefinement.RecordKeepsOrder(s, key, sample);
    RecordKeepsInv(s, key, sample, prunes);
    DecodedAfterRecord(db, s.stored, key, sample, PruneDue(lastPrune, sample.at) && prunes, sample.at - s.retention);
  }

  /** One reconcile's Record: the sampler ends in step with a Record of the run, or with nothing but a later clock. */
  method ReconcilePower(sampler: PowerSampler.Sampler, store: SampleStore.Store, ghost s: State, key: string,
                        powerW: Float64, activeW: Float64, now: int, appends: bool, prunes: bool)
    returns (ok: bool, ghost t: State)
    requires Inv(s) && InStep(sampler, store, s) && s.clock <= now && ByteKeys.InEpoch(now)
    modifies sampler, store
    ensures ok == appends
    ensures t == if ok then SamplerRuns.AfterRecord(At(s, now), key, Sample(now, powerW, activeW), prunes)
                 else At(s, now)
    ensures Inv(t) && InStep(sampler, store, t)
  {
    ClockMoves(s, now);
    RecordMatches(sampler.samples, sampler.lastPrune, store.db, At(s, now), key, Sample(now, powerW, activeW), prunes);
    ok := sampler.Record(key, powerW, activeW, now, appends, prunes);
    t := if ok then SamplerRuns.AfterRecord(At(s, now), key, Sample(now, powerW, activeW), prunes) else At(s, now);
  }

  /** A restart: the process opens the file it finds, and its new sampler is in step with the run's restart. */
  method Restarted(file: SampleStore.Db, ghost s: State, retention: int, now: int)
    returns (sampler: PowerSampler.Sampler, store: SampleStore.Store, ok: bool, ghost t: State)
    requires Inv(s) && StoreRefinement.Decodes(file, s.stored) && retention == s.retention
    requires s.clock < now && ByteKeys.InEpoch(now)
    ensures ok && t == Next(s, Restart(now)) && Inv(t) && InStep(sampler, store, t)
  {
    assert s.retention <= s.clock;
    StepKeepsInv(s, Restart(now));
    StoreRefinement.RestartRefines(file, s, now);
    store := new SampleStore.Store.Open(file);
    sampler, ok := PowerSampler.Sampler.NewSamplerWithStore(retention, store, now);
    t := Next(s, Restart(now));
  }

  /** What the sampler reports for a window is what the committed samples say, from the first one in memory on. */
  method Report(sampler: PowerSampler.Sampler, store: SampleStore.Store, ghost s: State, key: string, a: int, b: int)
    returns (w: Windows.WindowSummary)
    requires Inv(s) && InStep(sampler, store, s)
    ensures var window := ListOf(sampler.samples, key);
            w == if window == [] then Windows.NO_DATA else Windows.Summary(ListOf(s.log, key), Max(a, window[0].at), b)
  {
    SamplerRuns.WindowIsExact(s, key, a, b);
    w := sampler.Summarize(key, a, b);
  }
}
