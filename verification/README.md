# Verified model of the InferCost controllers

InferCost is a Kubernetes operator that prices on-premises AI inference. It samples GPU power, keeps the
samples in a window that survives restarts, turns power and token counters into costs per model and per
namespace, compares them with cloud prices, watches budgets, and exports FOCUS rows. This project models the
parts of it where several functions have to agree with each other, and proves that they do, or exactly when.

`dafny verify dfyconfig.toml` checks everything.

## The main results

1. **The power window is a cache that can be trusted.** Records of many profiles interleave step by step, writes
   and prunes fail, the process stops and starts again. In every such run memory and disk describe the same
   history on the live window, a window computed from memory is the pointwise integral of the committed samples,
   a restart cannot be seen in a report, windows that have ended never change, and the store stays bounded
   (`Protocol`, `SamplerRuns`). The byte-level store (big-endian keys, cursor loops, in-place pruning) refines the
   store of those runs (`Buckets`, `SampleStore`, `StoreRefinement`), and the sampler object over the store object
   moves in step with them (`SamplerSystem`).
2. **A report is written exactly when something observable changed.** Over every run of reconciles the attempted
   writes are the disagreements between the wanted and the stored class, so with successful writes they are the
   changes of class; an idle cluster writes nothing, whatever order pods and maps come in (`StatusWrites`,
   `StatusRuns`). The fingerprint that decides this is exact for the names Kubernetes allows (`Fingerprint`).
3. **Attribution conserves cost** for every pod list and every map order, by model and by namespace, and carries
   one price (`Attribution`, `UsageReports`), down to the exported rows (`FocusExport`).
4. **Cost figures agree across functions**: the break-even verdict with the cloud bill, the three prices per million
   tokens with one another, token rates with the tokens really produced (`Calculator`, `ReportCosts`, `BreakEven`,
   `TokenRates`).
5. **Smaller round trips**: catalogue validation makes lookups unambiguous (`Pricing`), the command line reads back
   the budget level that the controller wrote (`Budgets`), the FOCUS export is a function of content (`FocusExport`).

## What the code does not promise

Each of these comes with the exact condition, for all inputs.

- Key order in the store is time order if and only if two instants lie on the same side of the Unix epoch. Pruning is
  exact if and only if the cut-off is not before it (or the bucket is empty), since before it everything goes; a read
  is exact if and only if neither bound is before it, or the bucket has no sample that the misplaced bound concerns
  (`KeyOrderIsTimeOrder`, `PruneIsExactFromTheEpochOn`, `RangeIsExactIff`).
- The comment that concurrent callers of `Record` are fine holds for different keys. For two overlapping Records of one
  key, less than the retention apart and with whatever prunes, memory and store end up with the same live history if
  and only if the inserts come in clock order or, for equal clocks, in the order of the commits, or the two samples are
  the same (`OverlappingRecords.CopiesAgreeIff`). What a report is then off by is stated field by field, and when it is
  off at all (`OverlappingReports`). The operator does not get there: it records a profile's power only in that
  profile's reconcile, and reconciles of one object are serialised.
- "Sits between marginal and fully-loaded" is not unconditional: the published hourly cost is computed from the latest
  draw only, and nothing in the CRD schema keeps it from being negative. A report has its three prices in order if and
  only if it has no tokens, or its hourly cost is not negative and either its window drew no active energy or the
  hourly cost covers an hour at the mean active draw (`PricesInOrderIff`, and `ReportPricesInOrderIff` for a report
  over the running sampler). After an active stretch that ends in an idle reading this says that amortization and idle
  electricity must not be negative together and must cover the active draw (`LatestDrawDecides`);
  `IdleReadingBreaksTheOrder` is a report where they do not.
- The break-even verdict agrees with the cloud's bill if and only if the hardware costs something per day
  (`VerdictAgreesIff`).
- The daily cost is a day of the hourly cost at idle draw if and only if the PUE factor is not negative or idling is
  free (`DailyCostIsADayOfIdling`).
- The tokens credited to a pod are those it served if and only if every accepted reading caught all that its counters
  had served. One reading does so if and only if the pod did not restart since the last one, or it had served nothing
  before the restart and the counter shows it, by standing below the last reading or by that reading having been zero
  (`GrowthIsAllIff`, `NeverOvercounts`). A restart hides what was served before it, and also the old reading once more
  when the counter has outgrown it (`HiddenByRestart`, `AroundARestart`).
- The export bills a report's period cost if and only if the report has no model rows, or some tokens, or no cost
  (`ReportBillsItsPeriod`).

Three results say where something that the cluster guarantees is needed. The write guard is exact on every report that
the controller builds, since pod label values and namespaces contain no slash (`BuiltReportsAreWrittenExactly`). Taken
alone, its row comparison is exact if and only if no row has a slash in a name (`MisreadIffSlashed`, `CanMissIff`). The
command line reads the written budget level back on every object the API server accepts, since the CRD schema keeps one
condition of each type (`RoundTrip`). Taken alone, it does so if and only if no true condition that the level denies
hides behind another one of its type (`RoundTripIff`, `StaleDuplicate`). The store is bounded by retention and prune
interval once a Record is through its prune, with one reconcile of a CostProfile at a time, as the operator runs. With
Records of several profiles at once it is bounded unless another Record's prune is still open, which the others pass by
(`StoreStaysBounded`, `OpenPruneIsPassed`).

Three comments differ from the code, and the model follows the code: `Prune` keeps a sample exactly at the cut-off
(store.go:133 says "at or before"); `Keys` lists every bucket, also an emptied one (store.go:118 says "has samples");
reports do not extrapolate beyond the retained samples (sampler.go:38, docs/cost-model.md:119).

## Reading the model

Instants are integer nanoseconds; `float64` results are reals, and the two `float64` fields of a stored sample are
64-bit patterns with the number each stands for. Clocks, the fate of every write transaction and API call, scrape
results and hydration times come in as parameters. A method that the source writes as a loop is a loop here, proved
against a function; a class stands where the source updates fields in place. `Samples.StateAt` reads a list of
samples as a step function of time, which is how two lists that differ only in invisible samples count as one history.
The functions that methods are proved against are in turn tied to the fields of what they read, without naming the
functions: `SteadyWindow`, `UsageIsTheCounters`, `ReadablePodIsFiled`, `EveryTargetIsAnswered`, `WrittenIsComputed`,
`SameClassIff`, `LevelIff`, `ExportHasEveryModel` and others of their kind.

The runs of `Protocol` assume of the environment: Records of one profile do not overlap (one reconcile per object);
the clock does not go back, has advanced at a restart, fits 64-bit nanoseconds, and is at least one retention past the
epoch, so that no cut-off lies before it; a Record does not take longer than the retention. The process may stop and
start at any point, also in the middle of Records. A Record's decision to prune and its prune are two steps, so Records
of other profiles can come between them. An earlier clock is left out for a reason: a cut-off before the epoch would
empty the store (`KeptBeforeTheEpoch`).

## Model

| member | source | states |
|---|---|---|
| `Samples.CollapseKeepsSteps` | internal/utilization/store.go:77-85 | Reducing equal-timestamp samples to the last one, as the store's overwrite does, leaves the history unchanged at every instant. |
| `Samples.SameStepsUnique` | internal/utilization/sampler.go:198-240 | Two duplicate-free sample lists with the same history are the same list. |
| `Samples.StateAtSince` | internal/utilization/sampler.go:300-318 | Trimming hides exactly the instants whose state was a trimmed sample. |
| `Samples.NormalNumber` | internal/utilization/store.go:170-175 | Sign, exponent and fraction bits of a normal float64 pattern stand for the number that IEEE 754 gives. |
| `Windows.MeasureIsIntegral` | internal/utilization/sampler.go:198-240 | The loop's clipped intervals add up to the pointwise integral over [start, end), field by field: observed time, time above the sample's own threshold, and both energies. |
| `Windows.SteadyWindow` | internal/utilization/sampler.go:198-240 | While one sample is in force a window reports its length in hours and draw times hours in kilowatt-hours, and counts both as active if and only if the draw exceeds the sample's own threshold. |
| `Windows.ActiveTimeIsCounted` | internal/utilization/sampler.go:198-240 | Active time is the number of nanoseconds whose sample in force draws more than its own threshold. |
| `Windows.ActiveEnergyIsSummed` | internal/utilization/sampler.go:198-240 | Active energy is the sum of the draws of those nanoseconds. |
| `Windows.MeasureOfOne` | internal/utilization/sampler.go:198-240 | A window after a single sample is active as a whole or not at all, by that sample's draw and threshold. |
| `Windows.WindowsAreAdditive` | internal/utilization/sampler.go:198-240 | The summary of [a, b) is the field-wise sum of those of [a, m) and [m, b). |
| `Windows.ObservedIsExact` | internal/utilization/sampler.go:198-240 | Total time is the part of the window after the first sample, clipped at zero. |
| `Windows.ActiveWithinObserved` | internal/utilization/sampler.go:198-240 | 0 <= active <= total <= window length. |
| `Windows.PastIsFrozen` | internal/utilization/sampler.go:54-58 | Samples at or after the end of a window, with any thresholds, do not change its summary. |
| `Windows.RetentionRemovesOnlyTheGap` | internal/utilization/sampler.go:300-318 | Trimming at a cut-off changes a window only by removing the part before the first sample that is kept. |
| `ByteKeys.BigEndianRoundTrip` | internal/utilization/store.go:159-168 | Reading back the eight key bytes gives the number that was written. |
| `ByteKeys.SampleRoundTrip` | internal/utilization/store.go:170-186 | Decoding an encoded sample under its key gives the sample back, for every bit pattern and every instant that fits 64 bits. |
| `ByteKeys.DiskFormat` | internal/utilization/store.go:159-186 | A key is the eight big-endian bytes of the nanoseconds, a value the bits of the draw and of the threshold, eight bytes each. |
| `ByteKeys.KeyOrderIsTimeOrder` | internal/utilization/store.go:159-163 | Byte order of two keys is time order if and only if the two instants lie on the same side of the epoch. |
| `Buckets.WrittenIsFiled` | internal/utilization/store.go:77-85 | Putting an encoded sample into a bucket files it in time order, replacing one of the same instant. |
| `Buckets.RangeIsWithin` | internal/utilization/store.go:89-116 | For bounds from the epoch on, the entries between the seek key and the end key decode to exactly the samples in [start, end), oldest first. |
| `Buckets.RangeIsExactIff` | internal/utilization/store.go:89-116 | For all bounds, a read decodes to the samples in [start, end) if and only if neither bound is before the epoch, or the bucket is empty, or a start before it should find nothing, or an end before it comes after a start past the last sample. |
| `Buckets.RangeIsIntact` | internal/utilization/store.go:89-116 | In a bucket that only this process wrote, no value of a range fails to decode. |
| `Buckets.KeptIsSince` | internal/utilization/store.go:136-157 | For a cut-off from the epoch on, what pruning keeps decodes to the samples at or after the cut-off. |
| `Buckets.PruneIsExactFromTheEpochOn` | internal/utilization/store.go:136-157 | Pruning keeps exactly the samples at or after the cut-off if and only if the cut-off is not before the epoch or the bucket is empty. |
| `Buckets.KeptBeforeTheEpoch` | internal/utilization/store.go:136-157 | A cut-off before the epoch empties the bucket, though no sample in it is older (`NoneBeforeTheEpoch`). |
| `SampleStore.Store.Append` | internal/utilization/store.go:77-85 | A committed append changes one bucket by one sample; any other outcome changes nothing. |
| `SampleStore.Store.LoadRange` | internal/utilization/store.go:89-116 | Succeeds exactly when the database is open and every value of the range decodes, and then returns the range's samples; a key without a bucket gives an empty list. |
| `SampleStore.Store.Keys` | internal/utilization/store.go:119-131 | The keys of all buckets, each once, in byte order. |
| `SampleStore.Store.Close` | internal/utilization/store.go:66-71 | After closing, every operation on the store fails. |
| `SampleStore.Store.Prune` | internal/utilization/store.go:136-157 | Drops the stale entries of every bucket in one transaction, or of none. |
| `PowerSampler.FirstNotBefore` | internal/utilization/sampler.go:307-310 | The binary search splits a window in time order at the cut-off. |
| `PowerSampler.Sampler.Gc` | internal/utilization/sampler.go:300-318 | Trims one key's window to the samples since the cut-off and touches no other key. |
| `PowerSampler.Sampler.PruneStore` | internal/utilization/sampler.go:285-297 | Prunes at most once per interval; a failed prune still counts as the attempt. |
| `PowerSampler.Sampler.Record` | internal/utilization/sampler.go:141-161 | A failed append changes neither memory nor disk nor the prune clock; a successful one files the sample in both, prunes when due, and leaves other keys' windows alone. |
| `PowerSampler.Sampler.Summarize` | internal/utilization/sampler.go:198-240 | Computes the sum of the clipped intervals of the key's window. |
| `PowerSampler.Sampler.Hydrate` | internal/utilization/sampler.go:258-279 | Loads every key's samples in [now - retention, now), and fails exactly when the store is closed or a value is damaged. |
| `PowerSampler.Sampler.NewSamplerWithStore` | internal/utilization/sampler.go:103-114 | A new sampler starts from what the store retains, or reports failure. |
| `Protocol.NextIsEffect` | internal/utilization/sampler.go:141-161 | A step of the whole system acts on each key on its own; only prunes and restarts reach other keys. |
| `Protocol.RunKeepsInv` | internal/utilization/sampler.go:141-161 | Every run keeps, for every key, sorted history, store and window, and both holding the history from before the live window on. |
| `Protocol.StartIsSound` | internal/utilization/sampler.go:118-131 | An empty sampler satisfies the invariant if and only if its clock is at least one retention past the epoch (and fits 64 bits). |
| `SamplerRuns.MemoryAgreesWithStore` | internal/utilization/sampler.go:141-161 | At any point of any run the key's memory and store agree from now - retention on, up to invisible duplicates, except for the one sample of an open Record. |
| `SamplerRuns.WindowIsExact` | internal/utilization/sampler.go:198-240 | A summary computed from memory is the integral of everything committed, from the first sample in memory on. |
| `SamplerRuns.SameCommitsSameReport` | internal/utilization/sampler.go:198-240 | Two samplers that committed the same samples report the same for every window both reach back to. |
| `SamplerRuns.RestartsAreInvisible` | internal/utilization/sampler.go:103-114 | For every run with stops and restarts at any points there is a run without them, the same step for step except that it finishes its open Records, that commits the same samples and reports the same for every key and every window starting at or after the first sample the restarted sampler has. |
| `SamplerRuns.EndedWindowsAreFrozen` | internal/utilization/sampler.go:158-159 | No later run changes the report of a window that has ended, while memory still reaches back to it and no Record from before its end is open. |
| `SamplerRuns.NewestIsKept` | internal/utilization/sampler.go:149-159 | Neither pruning nor trimming removes the newest committed sample while it is live. |
| `SamplerRuns.StoreStaysBounded` | internal/utilization/sampler.go:285-297 | In a run whose prunes commit, a Record at t that has decided on its prune leaves no sample of any key older than t - retention - prune interval, unless another Record's prune is still open; and none for certain when it is through its prune and alone. |
| `SamplerRuns.OpenPruneIsPassed` | internal/utilization/sampler.go:285-297 | While a due prune is open, a Record of another key less than an interval later finds no prune due and leaves the store as it is. |
| `SamplerRuns.PrunesAreApart` | internal/utilization/sampler.go:285-297 | Over any run without a stop, Records find a prune due at least fifteen minutes apart. |
| `SamplerRuns.MemoryStaysBounded` | internal/utilization/sampler.go:156-159 | An insert leaves no sample of the key in memory from before the retention. |
| `SamplerRuns.RecordIsItsSteps` | internal/utilization/sampler.go:141-161 | An uninterrupted Record is clock read, append, decision to prune, prune and insert, and has their combined effect. |
| `OverlappingRecords.PlayedOut` | internal/utilization/sampler.go:141-161 | In every interleaving of the commits, prunes and trimmed inserts of two Records of one key, memory ends as its live part and the samples in the order of the inserts, and the live part of the store has them in the order of the commits. |
| `OverlappingRecords.TrimIsTheSamplers` | internal/utilization/sampler.go:300-318 | In all these interleavings the sampler's own trim leaves what the model's does, although the window can be out of order. |
| `OverlappingRecords.CopiesAgreeIff` | internal/utilization/sampler.go:135-161 | For every interleaving and any prunes, memory and store tell the same live history if and only if the inserts come in clock order, or in commit order for equal clocks (or the samples are the same). |
| `OverlappingRecords.OutOfOrderIff` | internal/utilization/sampler.go:156-158 | Inserting the later sample first leaves memory in time order if and only if the clocks are equal. |
| `OverlappingRecords.SwappedHistoryIff` | internal/utilization/sampler.go:156-158 | It leaves the same history if and only if the samples are the same. |
| `OverlappingReports.SwappedReport` | internal/utilization/sampler.go:198-240 | The report of the swapped window is the right one plus the sample before held twice between the two clocks, plus the earlier sample in place of the later from then on, for every field. |
| `OverlappingReports.ReportsAgreeIff` | internal/utilization/sampler.go:198-240 | The swapped window reports the same if and only if the stretch between the clocks is outside the report or nothing precedes it, and the stretch after them is outside it or the samples weigh the same. |
| `StoreRefinement.RunRefines` | internal/utilization/store.go:77-157 | Along every run the bytes on disk decode to the stored samples of the run. |
| `StoreRefinement.RestartRefines` | internal/utilization/sampler.go:258-279 | Hydrating from those bytes succeeds and gives the memory that the run's restart gives. |
| `StoreRefinement.RecordRefines` | internal/utilization/sampler.go:149-156 | Append and prune on bytes commute with decoding. |
| `StoreRefinement.RecordKeepsOrder` | internal/utilization/sampler.go:156-159 | In every reachable state a Record appends in time order. |
| `StoreRefinement.AppendThenLoad` | internal/utilization/store.go:77-116 | After an append, a range load returns the sample and the key's other samples in range, except one of the same instant. |
| `SamplerSystem.ReconcilePower` | internal/controller/costprofile_controller.go:136-145 | The sampler object's Record takes the system from a state of the protocol to the state after that Record, or changes only the clock when the append fails. |
| `SamplerSystem.Restarted` | internal/utilization/sampler.go:103-114 | A process started on the file always comes up, in step with the protocol's restart. |
| `SamplerSystem.Report` | internal/controller/usagereport_controller.go:124-129 | The sampler object's summary is the integral of the committed samples. |
| `Attribution.ScrapeTokens` | internal/controller/usagereport_controller.go:247-296 | The model map has exactly the keys of the scrapeable pods that answered, each with their token sums, and the namespace map holds the sums of the model map. |
| `Attribution.UsageIsTheCounters` | internal/controller/usagereport_controller.go:262-312 | A model of a namespace is in the map if and only if a labelled, running, addressed pod of the report's namespaces answers for it; its input is the prompt counters of these pods and its output the predicted counters, each rounded down. |
| `Attribution.TotalsAreTheCounters` | internal/controller/usagereport_controller.go:262-293 | The totals of the map are the prompt and the predicted counters of all these pods. |
| `Attribution.TruncatedTowardZero` | internal/controller/usagereport_controller.go:281-282 | A counter becomes a whole number by cutting off toward zero. |
| `Attribution.PodOrderIsIrrelevant` | internal/controller/usagereport_controller.go:262-293 | Two listings of the same pods give the same model map. |
| `Attribution.BuildBreakdowns` | internal/controller/usagereport_controller.go:316-381 | One row per model and per namespace with its tokens, share and price, in any map order; totals are the sums of the model map; each namespace names its models once. |
| `Attribution.ModelCostsConserve` | internal/controller/usagereport_controller.go:334-352 | The models' costs add up to the period's cost, or to zero when there are no tokens. |
| `Attribution.NamespaceCostsAreTheirModels` | internal/controller/usagereport_controller.go:354-379 | A namespace costs what its models cost and counts their tokens. |
| `Attribution.NamespaceCostsConserve` | internal/controller/usagereport_controller.go:354-379 | The namespaces' costs add up to the same amount as the models'. |
| `Attribution.NamespacesNameTheirModels` | internal/controller/usagereport_controller.go:354-379 | A namespace's row names exactly the models its usage has, each once. |
| `Attribution.ModelPricesAreTheBlend` | internal/controller/usagereport_controller.go:110-117 | Every model with tokens is listed at the report's blended price per million. |
| `UsageReports.ComputeReport` | internal/controller/usagereport_controller.go:102-184 | The computed status is built from one scrape: its period and bounds, rows that break down that usage, cost from hourly cost and period, prices, energy and utilization from the power window, entries and unknown targets from its own totals. |
| `UsageReports.ReportCountsItsPods` | internal/controller/usagereport_controller.go:102-184 | A report's totals and each of its rows are the prompt and predicted counters of the pods that serve its namespaces. |
| `UsageReports.ReportCostsItsHours` | internal/controller/usagereport_controller.go:110-111 | A report of at least 3.6 seconds costs the hourly cost for the time its period has run. |
| `UsageReports.ReportVerdictIsTheBill` | internal/controller/usagereport_controller.go:400-446 | An entry of a report says on-prem if and only if the cloud's bill for its tokens, scaled to a day, reaches a day of the profile's amortization and idle electricity. |
| `UsageReports.ReportOnSampler` | internal/controller/usagereport_controller.go:102-184 | Over the running sampler a report is the report of its pods over what the committed samples say of the period: rows, cost, prices, energy, active hours, entries and unknown targets; and its utilization lies between 0 and 100. |
| `UsageReports.ReportPricesInOrderIff` | internal/controller/usagereport_controller.go:114-150 | Such a report has marginal <= active-hours <= fully loaded if and only if it has no tokens, or its hourly cost is not negative and covers an hour at the mean active draw of the committed samples (or there was no active energy). |
| `UsageReports.ReportSharesItsCost` | internal/controller/usagereport_controller.go:110-111 | Models and namespaces of a report each share out its total cost. |
| `UsageReports.ReportHasOnePrice` | internal/controller/usagereport_controller.go:114-117 | Every model with tokens is listed at the price the report itself shows. |
| `Fingerprint.DecInjective` | internal/controller/usagereport_controller.go:636 | Different integers print differently. |
| `Fingerprint.RowIsAmbiguousIffSlashed` | internal/controller/usagereport_controller.go:632-641 | Another row has the same string if and only if this row's namespace or model contains a slash. |
| `Fingerprint.NamespaceRowsRenderApart` | internal/controller/usagereport_controller.go:651-660 | Different namespace rows have different strings, whatever the names. |
| `Fingerprint.ModelBreakdownsEqual` | internal/controller/usagereport_controller.go:632-649 | Equal rows in any order compare equal; with namespaces free of slashes, only those do. |
| `Fingerprint.NamespaceBreakdownsEqual` | internal/controller/usagereport_controller.go:651-668 | Holds if and only if the two lists are equal as multisets. |
| `Fingerprint.MisreadIffSlashed` | internal/controller/usagereport_controller.go:632-649 | Some different breakdown compares equal to this one if and only if one of its rows has a slash in a name. |
| `StatusWrites.ContentEqual` | internal/controller/usagereport_controller.go:616-630 | True exactly when period, token counts and both fingerprints agree; costs and times play no part. |
| `StatusWrites.MarksAreClasses` | internal/controller/usagereport_controller.go:609-630 | What the code compares and what a reader would call a change are the same for names without slashes, and equal classes always compare equal. |
| `StatusWrites.SameClassIff` | internal/controller/usagereport_controller.go:609-668 | Two statuses are of one class if and only if period and token counts are equal, every model row and namespace row occurs equally often with the same tokens, and Ready has the same status and reason. |
| `StatusWrites.WrittenIsComputed` | internal/controller/usagereport_controller.go:499-547 | A written report is stored whole, every figure, row and entry with the time, and is Ready; an unwritten one changes nothing; other conditions stay. |
| `StatusWrites.MissingKeepsTheView` | internal/controller/usagereport_controller.go:211-229 | A missing profile leaves figures and time of the last report, sets Ready to false with its reason, and touches no other condition. |
| `StatusWrites.UsageReportReconciler.HandleMissingCostProfile` | internal/controller/usagereport_controller.go:211-229 | Attempts one write exactly when the Ready condition is not already the not-found one; a failed write leaves the stored status. |
| `StatusWrites.UsageReportReconciler.ApplyStatusIfChanged` | internal/controller/usagereport_controller.go:499-547 | Attempts one write exactly when readiness or content would change, and reports an error exactly when that write fails. |
| `StatusWrites.UsageReportReconciler.Reconcile` | internal/controller/usagereport_controller.go:93-184 | Attempts a write exactly when the wanted class differs from the stored one; a failed pod listing wants nothing. |
| `StatusRuns.AttemptsAreDisagreements` | internal/controller/usagereport_controller.go:499-547 | Over any run, with any pattern of failed writes, attempts are exactly the reconciles whose wanted class differs from the stored one. |
| `StatusRuns.WritesAreClassChanges` | internal/controller/usagereport_controller.go:499-547 | When writes succeed, a run makes as many writes as its class changes. |
| `StatusRuns.ViewIsLastReport` | internal/controller/usagereport_controller.go:499-547 | After any run the stored figures and their time are those of the last computed report whose write was attempted and accepted. |
| `StatusRuns.BuiltIsPlain` | internal/controller/usagereport_controller.go:280-293 | A report built from pods with Kubernetes names has no slash in a row. |
| `StatusRuns.BuiltReportsAreWrittenExactly` | internal/controller/usagereport_controller.go:499-547 | Over every run of reports that the controller builds, attempts are the disagreements, and the class changes when writes succeed. |
| `StatusRuns.RepeatWritesNothing` | internal/controller/usagereport_controller.go:535-541 | A reconcile that sees what the last accepted one saw writes nothing, for any names. |
| `StatusRuns.LostWritesAreRetried` | internal/controller/usagereport_controller.go:542-546 | A failed write is attempted again by the next reconcile that sees the same. |
| `StatusRuns.IdleClusterWritesNothing` | internal/controller/usagereport_controller.go:609-615 | The same pods in any order, any map orders and any drifted costs lead to no second write in a period. |
| `StatusRuns.CanMissIff` | internal/controller/usagereport_controller.go:632-649 | The comparison alone could miss a change if and only if the stored report is ready and has a row with a slash in a name. |
| `Conditions.FindAfterSet` | internal/controller/usagereport_controller.go:526-532 | Updating a condition by type sets its status and reason, and its time only if the status moves; every other type is found as it was. |
| `Conditions.OthersStay` | internal/controller/usagereport_controller.go:526-532 | It changes no condition of another type, found or hidden. |
| `Calculator.CompareToCloud` | internal/calculator/calculator.go:169-191 | One comparison per price, in order and under its name: cost less savings is the on-prem cost, and the percentage is of the cost when that is positive. |
| `Calculator.MillionTokensCost` | internal/calculator/calculator.go:169-191 | A million input tokens cost the input price, a million output tokens the output price, and costs of tokens add up. |
| `Calculator.AmortizationPaysThePurchase` | internal/calculator/calculator.go:33-50 | Amortization over the whole life pays the purchase and its maintenance. |
| `Calculator.KilowattHourCosts` | internal/calculator/calculator.go:31-50 | A kilowatt for an hour costs the rate times the overhead factor, electricity is in proportion to the draw, and the total is amortization plus electricity. |
| `Calculator.DailyCostIsADayOfIdling` | internal/calculator/calculator.go:198-206 | The daily hardware cost is 24 hours of the hourly cost at idle draw, if and only if the PUE factor is not negative (or idling costs nothing). |
| `Calculator.BlendIsTheBill` | internal/calculator/calculator.go:211-221 | The blended price per token times the tokens is what the comparison says they cost. |
| `Calculator.NothingServedIsAnEvenMix` | internal/calculator/calculator.go:208-222 | Before anything is served the blended price is that of any even mix. |
| `Calculator.BreakEvenPaysTheDay` | internal/calculator/calculator.go:225-241 | Break-even tokens at the blended price cost a day of hardware, and the percentage is the day's tokens in percent of them. |
| `Calculator.VerdictFollowsTheBill` | internal/controller/usagereport_controller.go:411-436 | With a positive daily hardware cost the verdict is on-prem exactly when the cloud's cost for the tokens, scaled to a day, reaches it. |
| `Calculator.VerdictAgreesIff` | internal/controller/usagereport_controller.go:430-436 | Verdict and bill agree if and only if the daily hardware cost is positive. |
| `Calculator.VerdictIsAHundredPercent` | internal/calculator/calculator.go:236-241 | The verdict is on-prem exactly when the percentage of break-even is at least 100. |
| `Calculator.FreeHardwareIsMisjudged` | internal/controller/usagereport_controller.go:433-436 | Hardware with no daily cost is judged cloud-cheaper although every bill reaches its cost. |
| `ReportCosts.ComputeFigures` | internal/controller/usagereport_controller.go:110-157 | The figures of a report from window, hourly cost and tokens; without a sampler the power figures are zero. |
| `ReportCosts.FullyLoadedIsThePeriod` | internal/controller/usagereport_controller.go:110-117 | The fully loaded price times the tokens is the hourly cost of the whole period. |
| `ReportCosts.MarginalIsTheElectricity` | internal/calculator/calculator.go:91-99 | The marginal price times the tokens is what the hourly cost charges in electricity for the same draw and hours. |
| `ReportCosts.PeriodHours` | internal/controller/usagereport_controller.go:231-242 | A period's hours are its nanoseconds, and never less than 3.6 seconds. |
| `ReportCosts.UtilizationIsAPercentage` | internal/controller/usagereport_controller.go:131-137 | Utilization lies in [0, 100] for every history, period and first sample in memory, the 0.001 h floor included. |
| `ReportCosts.ActiveHoursAtMostFullyLoaded` | internal/calculator/calculator.go:101-111 | The active-hours price is at most the fully loaded one if and only if there are no tokens or the hourly cost is not negative. |
| `ReportCosts.EqualWhenAlwaysActive` | internal/calculator/calculator.go:101-111 | The two prices are equal if and only if active hours fill the period at a positive hourly cost, or the hardware is free, or there are no tokens. |
| `ReportCosts.ActiveHoursIsProportional` | internal/calculator/calculator.go:101-111 | The active-hours price is the fully loaded one in proportion to the active part of the period, capped at all of it, if and only if the hourly cost is not negative or there is nothing to price. |
| `ReportCosts.MarginalOrdering` | internal/controller/usagereport_controller.go:139-150 | Marginal is at most active-hours in a window whose active draws the hourly cost covers, for any costs and rates. |
| `ReportCosts.PricesInOrderIff` | internal/calculator/calculator.go:91-111 | For the window of a report and any costs, marginal <= active-hours <= fully loaded if and only if there are no tokens, or the hourly cost is not negative and the window drew no active energy or the hourly cost covers an hour at the mean active draw. |
| `ReportCosts.MarginalOrderingEverywhereIff` | internal/calculator/calculator.go:97-99 | For any costs, marginal is at most active-hours in every window at once, down to one nanosecond, if and only if there are no tokens or the hourly cost, counted as zero when negative, covers every active draw. |
| `ReportCosts.LatestDrawCovers` | internal/controller/costprofile_controller.go:148 | The hourly cost published for the latest draw covers every draw up to it. |
| `ReportCosts.LatestDrawDecides` | internal/controller/costprofile_controller.go:148 | After an active stretch that ends in an idle reading, the prices are in order if and only if there are no tokens, or the hourly cost at the idle draw is not negative and covers the electricity of the active one (if it drew any). |
| `ReportCosts.IdleReadingBreaksTheOrder` | internal/calculator/calculator.go:97-99 | An hour at 1024 W followed by a reading of 32 W, ten cents an hour of amortization and thirty cents a kilowatt-hour: the prices are out of order. |
| `BreakEven.ComputeBreakEven` | internal/controller/usagereport_controller.go:400-448 | One entry per known target and one name per unknown one, in target order, the default targets when none are configured. |
| `BreakEven.EveryTargetIsAnswered` | internal/controller/usagereport_controller.go:400-428 | Every configured target, or each of the three default ones when none is configured, has an entry of its name if the catalogue has that name, and is handed back as provider/model otherwise; there are as many answers as targets. |
| `BreakEven.EntryFiguresAreTheLoad` | internal/controller/usagereport_controller.go:413-446 | An entry's daily tokens are the period's scaled to a day, its break-even tokens cost at the period's blend what the hardware costs per day, both to the nearest token, and its percentage is of one in the other. |
| `BreakEven.RoundIsNearest` | internal/controller/usagereport_controller.go:441-442 | Token figures are rounded to the nearest, halves away from zero. |
| `BreakEven.EntriesAndUnknownPartition` | internal/controller/usagereport_controller.go:422-428 | Every target is in exactly one of the two lists, and both keep the order. |
| `BreakEven.EntryVerdictIsTheBill` | internal/controller/usagereport_controller.go:429-446 | Over an accepted catalogue an entry's verdict is the comparison of the daily cloud bill with the daily hardware cost, and of its percentage with 100. |
| `Pricing.Flatten` | internal/calculator/pricing.go:53-70 | The flat list of all models of all providers, in order. |
| `Pricing.RowsAreTheModels` | internal/calculator/pricing.go:53-70 | The flat list holds one row for each model of each provider, with its names and its own input and output price, and no other. |
| `Pricing.Validate` | internal/calculator/pricing.go:120-144 | Accepts exactly the catalogues with providers, names, no two equal folded names and no negative price; otherwise names a problem the catalogue has. |
| `Pricing.AcceptedIff` | internal/calculator/pricing.go:120-144 | A catalogue is accepted if and only if it has providers, all named, with models all named and priced at zero or more, no two of which have one name once case is folded. |
| `Pricing.BuildIndex` | internal/controller/usagereport_controller.go:406-409 | The loop builds the table in which a later row replaces an earlier one of the same folded name. |
| `Pricing.LastRowWins` | internal/controller/usagereport_controller.go:406-409 | In any price list a name finds the last row that has it. |
| `Pricing.EveryRowResolves` | internal/controller/usagereport_controller.go:406-409 | Over clean rows none replaces another: each row is found under its own name. |
| `Pricing.LookupIsUnambiguous` | internal/controller/usagereport_controller.go:406-428 | Over an accepted catalogue a name finds the one row that folds to it or nothing, and there are as many names as models. |
| `TokenRates.ComputeTokenRate` | internal/calculator/calculator.go:60-81 | Rate times hours is the counter's growth, a drop counting as a restart from zero; no time, no rate. |
| `TokenRates.ComputeCostPerToken` | internal/calculator/calculator.go:84-89 | The price at which the hourly tokens spend exactly the hourly cost; no tokens, no price. |
| `TokenRates.CostProfileReconciler.ScrapeInferencePods` | internal/controller/costprofile_controller.go:239-338 | A pass replaces the snapshots of the pods it reaches, at most every ten seconds each, and publishes the rates between accepted ones with the cost per token they imply. |
| `TokenRates.PublishesReadablePods` | internal/controller/costprofile_controller.go:239-331 | A pass publishes only for pods that are labelled, running, addressed, answering and on the profile's node, under their namespace and name, with the counters they answered. |
| `TokenRates.FilesReadablePods` | internal/controller/costprofile_controller.go:239-316 | A pass changes a snapshot only to the reading of such a pod of that name. |
| `TokenRates.ReadablePodIsFiled` | internal/controller/costprofile_controller.go:291-331 | The reading of such a pod is filed if it is the first or at least ten seconds after the last one, and in the second case published, once. |
| `TokenRates.PublishedRateAndPrice` | internal/controller/costprofile_controller.go:324-331 | A published rate times its hours is the growth of both counters, and its price spends the hourly cost at that rate. |
| `TokenRates.PassIsScrapes` | internal/controller/costprofile_controller.go:239-323 | A pass is a stretch of the run, with anything served or restarting between its scrapes: it leaves the map that the run leaves. |
| `TokenRates.PublishedRatesAreCredited` | internal/controller/costprofile_controller.go:324-331 | The rates a pass publishes for a pod, times their intervals, are what the pod is credited with over the pass. |
| `TokenRates.MapKeepsEachPod` | internal/controller/costprofile_controller.go:296-316 | The map holds each pod's own last accepted snapshot. |
| `TokenRates.NeverOvercounts` | internal/controller/costprofile_controller.go:291-323 | Over any run, with any clock and any dropped scrapes, the credited tokens are at most those served between first and last accepted snapshot, and all of them if and only if every accepted reading caught all its counters served. |
| `TokenRates.GrowthIsAllIff` | internal/calculator/calculator.go:67-75 | A reading credits at most what was served since the last one, and all of it if and only if there was no restart, or nothing was served before it and the counter stands below the last reading or that was zero. |
| `TokenRates.HiddenByRestart` | internal/calculator/calculator.go:70-75 | What a restart hides is what was served before it, plus the old reading when the counter has outgrown it. |
| `TokenRates.NoRestartNoLoss` | internal/controller/costprofile_controller.go:291-323 | A pod that never restarts is credited with everything. |
| `TokenRates.AroundARestart` | internal/calculator/calculator.go:70-75 | For any amounts served before, between and after, the reading after a restart credits its growth over the last one. |
| `Budgets.HighestSeverity` | internal/controller/tokenbudget_controller.go:148-157 | Critical if a critical threshold is crossed, warning if only others are, nothing otherwise, for any list in any order. |
| `Budgets.TokenBudget.EvaluateConditions` | internal/controller/tokenbudget_controller.go:146-233 | Returns the level of the crossed thresholds and leaves the three conditions showing it, over any earlier conditions. |
| `Budgets.FirstSpend` | internal/controller/tokenbudget_controller.go:78-88 | The loop finds the spend of the namespace. |
| `Budgets.SpendIsTheFirst` | internal/controller/tokenbudget_controller.go:78-88 | That is the cost of the first entry for the namespace, zero if there is none. |
| `Budgets.PartOfTheLimit` | internal/controller/tokenbudget_controller.go:90-94 | Utilization is the spend in percent of the limit, zero without a limit. |
| `Budgets.LevelIff` | internal/controller/tokenbudget_controller.go:146-157 | A budget is exceeded if and only if a critical threshold's percentage of the limit is spent, and ok if and only if no threshold's is. |
| `Budgets.TokenBudget.Reconcile` | internal/controller/tokenbudget_controller.go:78-112 | Spend and utilization of the namespace are shown, the level is that of the spend against the limit, and the conditions show it. |
| `Budgets.EvaluatedReasons` | internal/controller/tokenbudget_controller.go:159-232 | The three conditions give the reasons of the level. |
| `Budgets.BudgetStatus` | pkg/cli/budget.go:116-148 | Exceeded if any BudgetExceeded condition is true, else Warning if any BudgetWarning is, else OK. |
| `Budgets.RoundTripIff` | pkg/cli/budget.go:116-148 | The command line reads back the written level if and only if no true condition that the level denies hides behind another of its type. |
| `Budgets.RoundTrip` | pkg/cli/budget.go:116-148 | With one condition of each type it always reads the level back. |
| `Budgets.StaleDuplicate` | pkg/cli/budget.go:124-141 | A true duplicate left behind is read back as Exceeded although the controller wrote ok. |
| `Budgets.LastLevelIsShown` | internal/controller/tokenbudget_controller.go:146-233 | After any run of evaluations the command line shows the last level. |
| `Budgets.LevelIsMonotone` | internal/controller/tokenbudget_controller.go:86-90 | More spend never lowers the level. |
| `Budgets.LevelIgnoresOrder` | internal/controller/tokenbudget_controller.go:148-157 | The level depends on which thresholds there are, not on their order. |
| `Order.OutcomeIsUniqueIff` | internal/focus/focus.go:104-112 | A sort that promises nothing about ties has one outcome if and only if no two different elements tie. |
| `Order.DictionaryOrder` | internal/focus/focus.go:104-112 | A string comes before another if and only if it is a proper beginning of it or smaller at the first place they differ. |
| `FocusExport.BestIsTheFirstMaximum` | internal/focus/focus.go:284-295 | The best comparison is the first of those with the highest savings. |
| `FocusExport.RowsForReport` | internal/focus/focus.go:130-152 | One row per model in sorted order, or one rollup row. |
| `FocusExport.Write` | internal/focus/focus.go:98-125 | The rows of all reports in sorted order. |
| `FocusExport.ExportHasEveryModel` | internal/focus/focus.go:98-282 | Every model of every report has a row with its cost, tokens, names, period, region, profile and best comparison, and every report without models its rollup. |
| `FocusExport.ExportHasNothingElse` | internal/focus/focus.go:98-282 | Every row is that of a model of some report, or the rollup of one without models. |
| `FocusExport.ReportsComeSorted` | internal/focus/focus.go:98-125 | The export is one block of rows per report, the reports by namespace and then by name. |
| `FocusExport.RowsComeSorted` | internal/focus/focus.go:130-152 | Within a report the rows come by namespace and then by model. |
| `FocusExport.ExportIsAFunctionOfContent` | internal/focus/focus.go:98-152 | Permuting the reports, or the models in any of them, gives the same row sequence, for distinct names. |
| `FocusExport.ExportIsComplete` | internal/focus/focus.go:127-152 | As many rows as models, counting one for a report without models. |
| `FocusExport.ExpansionIsComplete` | internal/focus/focus.go:130-152 | A report's rows bill what its models cost, or its own cost in the rollup. |
| `FocusExport.ReportBillsItsPeriod` | internal/focus/focus.go:130-152 | A report's rows bill its period's cost if and only if it has no model rows, or some tokens, or no cost. |

## Left out

- Rounding of float64 arithmetic: costs, rates and integrals are exact reals; subnormal, infinite and NaN patterns of a stored sample read as 0 in sums, though they are stored and read back bit for bit.
- Integer overflow of int64 token counts and float-to-int64 conversion outside the range; truncation toward zero is modelled.
- bbolt: a bucket is a list of key-value entries in key order, a transaction commits or changes nothing, a database file belongs to one process.
- `UnixNano` outside the 64-bit range is undefined in Go; such an instant gets key 0 here, and the theorems about keys exclude it.
- `lastPrune` is read and written in one step, a Record's decision to prune; the mutex of the sampler is the atomicity of each protocol step.
- `Hydrate` builds the map and assigns it at the end; the source fills the field key by key, which only shows after a failure, when the sampler is discarded.
- Kubernetes reads and lists, HTTP scraping, Prometheus parsing and gauges, the REST store, logging: pods come in with their counters, the API server as one stored status and a yes or no to each write.
- Calendar arithmetic (period start, ISO weeks, month bounds) and text formats (dates, money, condition messages, tags): period start and label are inputs.
- The usage report's CRD rows and the API store's rows for a namespace are filled together and are one row here, which carries the model names.
- The FOCUS columns that never vary.
- An amortization of zero years: the CRD schema demands at least one.
- Lower-casing is any map from letter to letter that leaves the slash alone; which one is a parameter.
- `Attribution.BuildBreakdowns`: its three loops over the maps are three methods that it calls.
- Cloud comparison and model lists that `scrapeInferencePods` also collects, `ComputeFull`, `DefaultIdleThresholdWatts`, `updateAPIStore`, PrometheusRule generation, backend and port selection: they would only add one-step members.
