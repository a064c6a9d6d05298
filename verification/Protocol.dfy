/**
  Runs of the sampler: Records of different profiles interleave at the steps where they can, also between
  a decision to prune and the prune; prunes and appends may fail, and the process may stop at any point
  and start again from the store.

  The state carries a `log` that no code sees: for every key, each sample whose append committed, in
  order.  The theorems say that the store, memory, and a window computed from memory are what the log
  says they should be.  Hypotheses on the environment: Records of one profile are serialised (one
  reconcile per object); the clock does not go back, stays in the range where key order is time order,
  and has advanced when the process starts again; a Record does not take longer than the retention.
 */
module Protocol {
  import opened Common
  import opened Samples
  import opened Archives
  import ByteKeys

  /** Where a Record is: clock read; append committed; prune decided on; prune done, or found not due. */
  datatype Phase = Clocked | Stored | Decided | Swept

  datatype Flight = Flight(sample: Sample, phase: Phase)

  datatype State = State(
    retention: nat,
    clock: int,
    log: Archive,
    stored: Archive,
    memory: Archive,
    lastPrune: Option<int>,
    flights: map<string, Flight>,
    due: set<string>)

  datatype Step =
    | Tick(now: int)
    | Begin(key: string, powerW: Float64, activeW: Float64)
    | Append(key: string, commits: bool)
    | Decide(key: string)
    | Prune(key: string, commits: bool)
    | Insert(key: string)
    | Restart(now: int)

  predicate Enabled(s: State, step: Step) {
    match step
    case Tick(now) =>
      && s.clock <= now && ByteKeys.InEpoch(now)
      && forall key :: key in s.flights ==> now - s.flights[key].sample.at <= s.retention
    case Begin(key, _, _) => key !in s.flights
    case Append(key, _) => key in s.flights && s.flights[key].phase == Clocked
    case Decide(key) => key in s.flights && s.flights[key].phase == Stored
    case Prune(key, _) => key in s.flights && s.flights[key].phase == Decided
    case Insert(key) => key in s.flights && s.flights[key].phase == Swept
    case Restart(now) => s.clock < now && ByteKeys.InEpoch(now)
  }

  /** The cut-off at which a step prunes the store, if it does: a Record that found a prune due may commit it. */
  function PruneCut(s: State, step: Step): Option<int>
    requires Enabled(s, step)
  {
    if step.Prune? && step.commits && step.key in s.due
    then Some(s.flights[step.key].sample.at - s.retention) else None
  }

  function Next(s: State, step: Step): State
    requires Enabled(s, step)
  {
    match step
    case Tick(now) => s.(clock := now)
    case Begin(key, powerW, activeW) =>
      s.(flights := s.flights[key := Flight(Sample(s.clock, powerW, activeW), Clocked)])
    case Append(key, commits) =>
      var sample := s.flights[key].sample;
      if commits then
        s.(stored := Filed(s.stored, key, sample),
           log := s.log[key := ListOf(s.log, key) + [sample]],
           flights := s.flights[key := Flight(sample, Stored)])
      else s.(flights := s.flights - {key})
    case Decide(key) =>
      var sample := s.flights[key].sample;
      var decided := s.flights[key := Flight(sample, Decided)];
      if PruneDue(s.lastPrune, sample.at) then
        s.(lastPrune := Some(sample.at), flights := decided, due := s.due + {key})
      else s.(flights := decided, due := s.due - {key})
    case Prune(key, commits) =>
      s.(stored := if PruneCut(s, step).Some? then TrimmedAll(s.stored, PruneCut(s, step).value) else s.stored,
         flights := s.flights[key := Flight(s.flights[key].sample, Swept)],
         due := s.due - {key})
    case Insert(key) =>
      var sample := s.flights[key].sample;
      s.(memory := Inserted(s.memory, key, sample, sample.at - s.retention),
         flights := s.flights - {key})
    case Restart(now) =>
      s.(clock := now,
         memory := LoadedAll(s.stored, now - s.retention, now),
         lastPrune := None,
         flights := map[],
         due := {})
  }

  function Run(s: State, steps: seq<Step>): Option<State> {
    if steps == [] then Some(s)
    else
      match Run(s, steps[..|steps| - 1])
      case None => None
      case Some(t) => if Enabled(t, steps[|steps| - 1]) then Some(Next(t, steps[|steps| - 1])) else None
  }

  function Start(retention: nat, now: int): State {
    State(retention, now, map[], map[], map[], None, map[], {})
  }

  // ----- one key at a time -----

  /** What concerns one key. */
  datatype KeyState = KeyState(log: seq<Sample>, stored: seq<Sample>, window: seq<Sample>, flight: Option<Flight>) {
    /** The committed samples less the one, if any, that an open Record has yet to put in memory. */
    function Settled(): seq<Sample> {
      if flight.Some? && flight.value.phase != Clocked && log != [] then log[..|log| - 1] else log
    }
  }

  function KeyAt(s: State, key: string): KeyState {
    KeyState(ListOf(s.log, key), ListOf(s.stored, key), ListOf(s.memory, key),
             if key in s.flights then Some(s.flights[key]) else None)
  }

  /** Whether a step of the system is possible, as far as one key is concerned. */
  predicate Allowed(k: KeyState, step: Step, key: string, clock: int, retention: nat) {
    match step
    case Tick(now) =>
      clock <= now && ByteKeys.InEpoch(now) && (k.flight.Some? ==> now - k.flight.value.sample.at <= retention)
    case Begin(b, _, _) => b == key ==> k.flight.None?
    case Append(a, _) => a == key ==> k.flight.Some? && k.flight.value.phase == Clocked
    case Decide(d) => d == key ==> k.flight.Some? && k.flight.value.phase == Stored
    case Prune(p, _) => p == key ==> k.flight.Some? && k.flight.value.phase == Decided
    case Insert(i) => i == key ==> k.flight.Some? && k.flight.value.phase == Swept
    case Restart(now) => clock < now && ByteKeys.InEpoch(now)
  }

  /** What the step does to the key; `pruned` is the cut-off of a prune that it commits. */
  function Effect(k: KeyState, step: Step, key: string, clock: int, retention: nat, pruned: Option<int>): KeyState
    requires Allowed(k, step, key, clock, retention)
  {
    match step
    case Tick(_) => k
    case Begin(b, powerW, activeW) =>
      if b == key then k.(flight := Some(Flight(Sample(clock, powerW, activeW), Clocked))) else k
    case Append(a, commits) =>
      if a != key then k
      else if commits then Committed(k, k.flight.value.sample)
      else k.(flight := None)
    case Decide(d) => if d == key then Moved(k, Decided) else k
    case Prune(p, _) =>
      k.(stored := if pruned.Some? then Since(k.stored, pruned.value) else k.stored,
         flight := if p == key then Some(k.flight.value.(phase := Swept)) else k.flight)
    case Insert(i) =>
      if i == key then Remembered(k, k.flight.value.sample, k.flight.value.sample.at - retention) else k
    case Restart(now) => Reloaded(k, now, retention)
  }

  /** The open Record of the key has come to the next phase. */
  function Moved(k: KeyState, phase: Phase): KeyState
    requires k.flight.Some?
  {
    k.(flight := Some(k.flight.value.(phase := phase)))
  }

  function Committed(k: KeyState, sample: Sample): KeyState {
    KeyState(k.log + [sample], Upsert(k.stored, sample), k.window, Some(Flight(sample, Stored)))
  }

  function Remembered(k: KeyState, sample: Sample, trim: int): KeyState {
    k.(window := Since(k.window + [sample], trim), flight := None)
  }

  function Reloaded(k: KeyState, now: int, retention: nat): KeyState {
    KeyState(k.log, k.stored, Within(k.stored, now - retention, Some(now)), None)
  }

  function ClockAfter(clock: int, step: Step): int {
    if step.Tick? || step.Restart? then step.now else clock
  }

  lemma TickEffect(s: State, now: int, key: string)
    requires Enabled(s, Tick(now))
    ensures KeyAt(Next(s, Tick(now)), key) == KeyAt(s, key)
    ensures Allowed(KeyAt(s, key), Tick(now), key, s.clock, s.retention)
  {
  }

  lemma BeginEffect(s: State, step: Step, key: string)
    requires Enabled(s, step) && step.Begin?
    ensures Allowed(KeyAt(s, key), step, key, s.clock, s.retention)
    ensures KeyAt(Next(s, step), key) == Effect(KeyAt(s, key), step, key, s.clock, s.retention, None)
  {
  }

  lemma AppendEffect(s: State, step: Step, key: string)
    requires Enabled(s, step) && step.Append?
    ensures Allowed(KeyAt(s, key), step, key, s.clock, s.retention)
    ensures KeyAt(Next(s, step), key) == Effect(KeyAt(s, key), step, key, s.clock, s.retention, None)
  {
  }

  lemma DecideEffect(s: State, step: Step, key: string)
    requires Enabled(s, step) && step.Decide?
    ensures Allowed(KeyAt(s, key), step, key, s.clock, s.retention)
    ensures KeyAt(Next(s, step), key) == Effect(KeyAt(s, key), step, key, s.clock, s.retention, None)
  {
  }

  lemma PruneEffect(s: State, step: Step, key: string)
    requires Enabled(s, step) && step.Prune?
    ensures Allowed(KeyAt(s, key), step, key, s.clock, s.retention)
    ensures KeyAt(Next(s, step), key) == Effect(KeyAt(s, key), step, key, s.clock, s.retention, PruneCut(s, step))
  {
  }

  lemma InsertEffect(s: State, inserted: string, key: string)
    requires Enabled(s, Insert(inserted))
    ensures Allowed(KeyAt(s, key), Insert(inserted), key, s.clock, s.retention)
    ensures KeyAt(Next(s, Insert(inserted)), key)
         == Effect(KeyAt(s, key), Insert(inserted), key, s.clock, s.retention, None)
  {
  }

  lemma RestartEffect(s: State, now: int, key: string)
    requires Enabled(s, Restart(now))
    ensures KeyAt(Next(s, Restart(now)), key) == Reloaded(KeyAt(s, key), now, s.retention)
    ensures Allowed(KeyAt(s, key), Restart(now), key, s.clock, s.retention)
  {
  }

  /** A step of the system acts on each key on its own: `after` is the key's state, and the effect of the step on it. */
  lemma NextIsEffect(s: State, step: Step, key: string) returns (after: KeyState)
    requires Enabled(s, step)
    ensures Allowed(KeyAt(s, key), step, key, s.clock, s.retention) && after == KeyAt(Next(s, step), key)
    ensures after == Effect(KeyAt(s, key), step, key, s.clock, s.retention, PruneCut(s, step))
    ensures Next(s, step).clock == ClockAfter(s.clock, step) && Next(s, step).retention == s.retention
  {
    match step {
      case Tick(now) => TickEffect(s, now, key);
      case Begin(_, _, _) => BeginEffect(s, step, key);
      case Append(_, _) => AppendEffect(s, step, key);
      case Decide(_) => DecideEffect(s, step, key);
      case Prune(_, _) => PruneEffect(s, step, key);
      case Insert(inserted) => InsertEffect(s, inserted, key);
      case Restart(now) => RestartEffect(s, now, key);
    }
    after := KeyAt(Next(s, step), key);
  }

  // ----- the invariant -----

  /** A list that holds a history from some cut-off on. */
  ghost predicate HoldsFrom(xs: seq<Sample>, history: seq<Sample>, cutoff: int) {
    SameSteps(xs, Since(history, cutoff))
  }

  /** The cut-off is at or before the start of the live window. */
  ghost predicate Holds(xs: seq<Sample>, history: seq<Sample>, horizon: int) {
    Ascending(xs) && exists cutoff :: cutoff <= horizon && HoldsFrom(xs, history, cutoff)
  }

  ghost predicate LogSound(k: KeyState, clock: int, retention: nat) {
    && Ascending(k.log) && UpTo(k.log, clock)
    && (k.flight.Some? ==> FlightSound(k.flight.value, k.log, clock, retention))
  }

  predicate FlightSound(flight: Flight, log: seq<Sample>, clock: int, retention: nat) {
    && retention <= flight.sample.at <= clock <= flight.sample.at + retention
    && (flight.phase == Clocked ==> UpTo(log, flight.sample.at))
    && (flight.phase != Clocked ==> log != [] && log[|log| - 1] == flight.sample)
  }

  ghost predicate StoreSound(k: KeyState, horizon: int) {
    StrictlyAscending(k.stored) && Holds(k.stored, k.log, horizon)
  }

  ghost predicate MemorySound(k: KeyState, horizon: int) {
    Holds(k.window, k.Settled(), horizon)
  }

  ghost predicate Sound(k: KeyState, clock: int, retention: nat) {
    LogSound(k, clock, retention) && StoreSound(k, clock - retention) && MemorySound(k, clock - retention)
  }

  ghost predicate Inv(s: State) {
    && s.retention <= s.clock && ByteKeys.InEpoch(s.clock)
    && forall key :: Sound(KeyAt(s, key), s.clock, s.retention)
  }

  // ----- what a list that holds a history can be put through -----

  lemma HoldsLonger(xs: seq<Sample>, history: seq<Sample>, horizon: int, later: int)
    requires Holds(xs, history, horizon) && horizon <= later
    ensures Holds(xs, history, later)
  {
  }

  lemma HoldsUpTo(xs: seq<Sample>, history: seq<Sample>, horizon: int, t: int)
    requires Holds(xs, history, horizon) && Ascending(history) && UpTo(history, t)
    ensures UpTo(xs, t)
  {
    var cutoff :| cutoff <= horizon && HoldsFrom(xs, history, cutoff);
    if xs != [] {
      var last := xs[|xs| - 1];
      assert StateAt(xs, last.at) == Some(last);
      SinceAscending(history, cutoff);
      NoneAfterLast(Since(history, cutoff), last.at);
    }
  }

  /** Appending to both keeps the correspondence. */
  lemma HoldsAppend(xs: seq<Sample>, history: seq<Sample>, horizon: int, s: Sample)
    requires Holds(xs, history, horizon) && Ascending(history) && UpTo(history, s.at) && horizon <= s.at
    ensures Holds(xs + [s], history + [s], horizon)
  {
    var cutoff :| cutoff <= horizon && HoldsFrom(xs, history, cutoff);
    HoldsUpTo(xs, history, horizon, s.at);
    AscendingAppend(xs, s);
    SameStepsAppend(xs, Since(history, cutoff), s);
    KeptByTrim(history, s, cutoff);
    assert HoldsFrom(xs + [s], history + [s], cutoff);
  }

  lemma KeptByTrim(history: seq<Sample>, s: Sample, cutoff: int)
    requires cutoff <= s.at
    ensures Since(history + [s], cutoff) == Since(history, cutoff) + [s]
  {
    assert (history + [s])[..|history|] == history;
  }

  /** Trimming to a cut-off not after the horizon keeps it too. */
  lemma HoldsTrim(xs: seq<Sample>, history: seq<Sample>, horizon: int, trim: int)
    requires Holds(xs, history, horizon) && Ascending(history) && trim <= horizon
    ensures Holds(Since(xs, trim), history, horizon)
  {
    var cutoff :| cutoff <= horizon && HoldsFrom(xs, history, cutoff);
    SinceAscending(history, cutoff);
    SinceAscending(xs, trim);
    SameStepsSince(xs, Since(history, cutoff), trim);
    SinceSince(history, cutoff, trim);
    assert HoldsFrom(Since(xs, trim), history, Max(cutoff, trim));
  }

  /** Only the history a list shows matters. */
  lemma HoldsSame(xs: seq<Sample>, ys: seq<Sample>, history: seq<Sample>, horizon: int)
    requires Holds(xs, history, horizon) && Ascending(ys) && SameSteps(ys, xs)
    ensures Holds(ys, history, horizon)
  {
    var cutoff :| cutoff <= horizon && HoldsFrom(xs, history, cutoff);
    assert HoldsFrom(ys, history, cutoff);
  }

  // ----- each step keeps the invariant, key by key -----

  lemma TickKeeps(k: KeyState, clock: int, now: int, retention: nat)
    requires Sound(k, clock, retention) && clock <= now
    requires k.flight.Some? ==> now <= k.flight.value.sample.at + retention
    ensures Sound(k, now, retention)
  {
  }

  lemma AppendKeeps(k: KeyState, sample: Sample, clock: int, retention: nat)
    requires Sound(k, clock, retention) && k.flight == Some(Flight(sample, Clocked))
    ensures Sound(Committed(k, sample), clock, retention)
  {
    var t := Committed(k, sample);
    AscendingAppend(k.log, sample);
    StoreAppend(k.stored, k.log, sample, clock - retention);
    assert t.log[..|t.log| - 1] == k.log;
    assert t.Settled() == k.Settled();
  }

  lemma StoreAppend(stored: seq<Sample>, log: seq<Sample>, sample: Sample, horizon: int)
    requires StrictlyAscending(stored) && Holds(stored, log, horizon)
    requires Ascending(log) && UpTo(log, sample.at) && horizon <= sample.at
    ensures StrictlyAscending(Upsert(stored, sample)) && Holds(Upsert(stored, sample), log + [sample], horizon)
  {
    HoldsUpTo(stored, log, horizon, sample.at);
    UpsertStrict(stored, sample);
    StrictIsAscending(Upsert(stored, sample));
    UpsertAtTheEnd(stored, sample);
    HoldsAppend(stored, log, horizon, sample);
    HoldsSame(stored + [sample], Upsert(stored, sample), log + [sample], horizon);
  }

  lemma PruneKeeps(k: KeyState, cutoff: int, clock: int, retention: nat)
    requires Sound(k, clock, retention) && cutoff <= clock - retention
    ensures Sound(k.(stored := Since(k.stored, cutoff)), clock, retention)
  {
    SinceStrict(k.stored, cutoff);
    HoldsTrim(k.stored, k.log, clock - retention, cutoff);
  }

  lemma InsertKeeps(k: KeyState, sample: Sample, clock: int, retention: nat)
    requires Sound(k, clock, retention) && k.flight == Some(Flight(sample, Swept))
    ensures Sound(Remembered(k, sample, sample.at - retention), clock, retention)
  {
    var t := Remembered(k, sample, sample.at - retention);
    assert t.log == k.log && t.stored == k.stored;
    MemoryInsert(k.window, k.log, sample, clock - retention, sample.at - retention);
    NothingPending(t);
  }

  lemma NothingPending(k: KeyState)
    requires k.flight.None?
    ensures k.Settled() == k.log
  {
  }

  lemma MemoryInsert(window: seq<Sample>, log: seq<Sample>, sample: Sample, horizon: int, trim: int)
    requires log != [] && log[|log| - 1] == sample && Ascending(log)
    requires Holds(window, log[..|log| - 1], horizon) && trim <= horizon <= sample.at
    ensures Holds(Since(window + [sample], trim), log, horizon)
  {
    var settled := log[..|log| - 1];
    assert log == settled + [sample];
    AscendingAppend(settled, sample);
    HoldsAppend(window, settled, horizon, sample);
    HoldsTrim(window + [sample], log, horizon, trim);
  }

  lemma RestartKeeps(k: KeyState, clock: int, now: int, retention: nat)
    requires Sound(k, clock, retention) && clock < now
    ensures Sound(Reloaded(k, now, retention), now, retention)
  {
    LoadedIsLive(k, clock, now, retention);
    HoldsLonger(k.stored, k.log, clock - retention, now - retention);
    HoldsTrim(k.stored, k.log, now - retention, now - retention);
  }

  /** A restart loads the whole live window: no stored sample lies at or after its clock. */
  lemma LoadedIsLive(k: KeyState, clock: int, now: int, retention: nat)
    requires Sound(k, clock, retention) && clock < now
    ensures Within(k.stored, now - retention, Some(now)) == Since(k.stored, now - retention)
  {
    var xs := k.stored;
    HoldsUpTo(xs, k.log, clock - retention, clock);
    forall i | 0 <= i < |xs| ensures xs[i].at < now {
      AscendingPair(xs, i, |xs| - 1);
    }
    WithinVersusSince(xs, now - retention, now);
  }

  /** The key is sound, and the step can happen to it. */
  ghost predicate Ready(k: KeyState, step: Step, key: string, clock: int, retention: nat, pruned: Option<int>) {
    && Sound(k, clock, retention) && Allowed(k, step, key, clock, retention)
    && retention <= clock && (pruned.Some? ==> pruned.value <= clock - retention)
  }

  lemma EffectKeeps(k: KeyState, step: Step, key: string, clock: int, retention: nat, pruned: Option<int>)
      returns (after: KeyState)
    requires Ready(k, step, key, clock, retention, pruned)
    ensures Sound(after, ClockAfter(clock, step), retention)
    ensures after == Effect(k, step, key, clock, retention, pruned)
  {
    match step {
      case Tick(now) => TickKeeps(k, clock, now, retention);
      case Begin(_, _, _) => BeginEffectKeeps(k, step, key, clock, retention, pruned);
      case Append(_, _) => AppendEffectKeeps(k, step, key, clock, retention, pruned);
      case Decide(_) => DecideEffectKeeps(k, step, key, clock, retention, pruned);
      case Prune(_, _) => PruneEffectKeeps(k, step, key, clock, retention, pruned);
      case Insert(_) => InsertEffectKeeps(k, step, key, clock, retention, pruned);
      case Restart(now) => RestartKeeps(k, clock, now, retention);
    }
    after := Effect(k, step, key, clock, retention, pruned);
  }

  lemma BeginEffectKeeps(k: KeyState, step: Step, key: string, clock: int, retention: nat, pruned: Option<int>)
    requires Ready(k, step, key, clock, retention, pruned) && step.Begin?
    ensures Sound(Effect(k, step, key, clock, retention, pruned), clock, retention)
  {
    if step.key == key {
      BeginKeeps(k, Sample(clock, step.powerW, step.activeW), clock, retention);
    }
  }

  lemma AppendEffectKeeps(k: KeyState, step: Step, key: string, clock: int, retention: nat, pruned: Option<int>)
    requires Ready(k, step, key, clock, retention, pruned) && step.Append?
    ensures Sound(Effect(k, step, key, clock, retention, pruned), clock, retention)
  {
    if step.key == key && step.commits {
      AppendKeeps(k, k.flight.value.sample, clock, retention);
    } else if step.key == key {
      FailureKeeps(k, clock, retention);
    }
  }

  lemma DecideEffectKeeps(k: KeyState, step: Step, key: string, clock: int, retention: nat, pruned: Option<int>)
    requires Ready(k, step, key, clock, retention, pruned) && step.Decide?
    ensures Sound(Effect(k, step, key, clock, retention, pruned), clock, retention)
  {
    if step.key == key {
      MovedKeeps(k, Decided, clock, retention);
    }
  }

  lemma PruneEffectKeeps(k: KeyState, step: Step, key: string, clock: int, retention: nat, pruned: Option<int>)
    requires Ready(k, step, key, clock, retention, pruned) && step.Prune?
    ensures Sound(Effect(k, step, key, clock, retention, pruned), clock, retention)
  {
    var moved := if step.key == key then Moved(k, Swept) else k;
    if step.key == key {
      MovedKeeps(k, Swept, clock, retention);
    }
    if pruned.Some? {
      PruneKeeps(moved, pruned.value, clock, retention);
    }
  }

  lemma InsertEffectKeeps(k: KeyState, step: Step, key: string, clock: int, retention: nat, pruned: Option<int>)
    requires Ready(k, step, key, clock, retention, pruned) && step.Insert?
    ensures Sound(Effect(k, step, key, clock, retention, pruned), clock, retention)
  {
    if step.key == key {
      var sample := k.flight.value.sample;
      InsertKeeps(k, sample, clock, retention);
      assert Effect(k, step, key, clock, retention, pruned) == Remembered(k, sample, sample.at - retention);
    }
  }

  lemma BeginKeeps(k: KeyState, sample: Sample, clock: int, retention: nat)
    requires Sound(k, clock, retention) && k.flight.None? && sample.at == clock && retention <= clock
    ensures Sound(k.(flight := Some(Flight(sample, Clocked))), clock, retention)
  {
    assert k.(flight := Some(Flight(sample, Clocked))).Settled() == k.Settled();
  }

  lemma FailureKeeps(k: KeyState, clock: int, retention: nat)
    requires Sound(k, clock, retention) && k.flight.Some? && k.flight.value.phase == Clocked
    ensures Sound(k.(flight := None), clock, retention)
  {
    assert k.(flight := None).Settled() == k.Settled();
  }

  lemma MovedKeeps(k: KeyState, phase: Phase, clock: int, retention: nat)
    requires Sound(k, clock, retention) && k.flight.Some? && k.flight.value.phase != Clocked && phase != Clocked
    ensures Sound(Moved(k, phase), clock, retention)
  {
    assert Moved(k, phase).Settled() == k.Settled();
  }

  /** A prune never cuts into the live window, nor before the epoch. */
  lemma CutIsLive(s: State, step: Step)
    requires Inv(s) && Enabled(s, step)
    ensures PruneCut(s, step).Some? ==> 0 <= PruneCut(s, step).value <= s.clock - s.retention
  {
    if step.Prune? {
      assert Sound(KeyAt(s, step.key), s.clock, s.retention);
    }
  }

  lemma StepKeepsInv(s: State, step: Step)
    requires Inv(s) && Enabled(s, step)
    ensures Inv(Next(s, step))
  {
    CutIsLive(s, step);
    forall key ensures Sound(KeyAt(Next(s, step), key), Next(s, step).clock, s.retention) {
      assert Sound(KeyAt(s, key), s.clock, s.retention);
      var after := NextIsEffect(s, step, key);
      var kept := EffectKeeps(KeyAt(s, key), step, key, s.clock, s.retention, PruneCut(s, step));
    }
  }

  /** Every run keeps the store and memory in step with what was committed. */
  lemma {:induction false} RunKeepsInv(s: State, steps: seq<Step>)
    requires Inv(s)
    ensures Run(s, steps).Some? ==> Inv(Run(s, steps).value)
  {
    if steps != [] {
      var n := |steps| - 1;
      RunKeepsInv(s, steps[..n]);
      if Run(s, steps).Some? {
        StepKeepsInv(Run(s, steps[..n]).value, steps[n]);
      }
    }
  }

  /** An empty sampler is sound exactly from one retention past the epoch on. */
  lemma StartIsSound(retention: nat, now: int)
    ensures Inv(Start(retention, now)) <==> retention <= now && ByteKeys.InEpoch(now)
  {
    if retention <= now && ByteKeys.InEpoch(now) {
      forall key ensures Sound(KeyAt(Start(retention, now), key), now, retention) {
        HoldsItself([], now - retention);
      }
    }
  }

  lemma HoldsItself(xs: seq<Sample>, horizon: int)
    requires Ascending(xs)
    ensures Holds(xs, xs, horizon)
  {
    var cutoff := if xs == [] then horizon else Min(horizon, xs[0].at);
    AllSince(xs, cutoff);
    assert HoldsFrom(xs, xs, cutoff);
  }
}
