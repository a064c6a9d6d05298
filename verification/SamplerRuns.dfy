/**
  What every run of the sampler guarantees: memory agrees with the store on the live window, a restart
  cannot be seen in a report, ended windows stay as they were, and the store stays bounded.
 */
module SamplerRuns {
  import opened Common
  import opened Samples
  import opened Windows
  import opened Archives
  import opened Protocol

  // ----- memory and store -----

  /** The sample, if any, that is committed but not yet in memory. */
  function Pending(k: KeyState): seq<Sample> {
    if k.flight.Some? && k.flight.value.phase != Clocked then [k.flight.value.sample] else []
  }

  /**
    On the live window memory and store hold the same samples, once memory's equal-timestamp duplicates
    are collapsed as the store overwrites them; an open Record is the only difference between the two.
   */
  lemma MemoryAgreesWithStore(s: State, key: string)
    requires Inv(s)
    ensures var k, live := KeyAt(s, key), s.clock - s.retention;
            Collapse(Since(k.window + Pending(k), live)) == Since(k.stored, live)
  {
    var k, live := KeyAt(s, key), s.clock - s.retention;
    assert Sound(k, s.clock, s.retention);
    HoldsWithPending(k, s.clock, s.retention);
    LiveListsAgree(k.window + Pending(k), k.stored, k.log, live);
  }

  lemma LiveListsAgree(xs: seq<Sample>, stored: seq<Sample>, history: seq<Sample>, live: int)
    requires Holds(xs, history, live) && Holds(stored, history, live)
    requires StrictlyAscending(stored) && Ascending(history)
    ensures Collapse(Since(xs, live)) == Since(stored, live)
  {
    LiveParts(xs, history, live);
    LiveParts(stored, history, live);
    SinceStrict(stored, live);
    SinceAscending(xs, live);
    SameStepsCollapse(Since(xs, live), Since(stored, live));
  }

  lemma HoldsWithPending(k: KeyState, clock: int, retention: nat)
    requires Sound(k, clock, retention)
    ensures Holds(k.window + Pending(k), k.log, clock - retention)
  {
    if Pending(k) == [] {
      assert k.window + [] == k.window;
    } else {
      assert k.log == k.Settled() + Pending(k);
      AscendingAppend(k.Settled(), k.flight.value.sample);
      HoldsAppend(k.window, k.Settled(), clock - retention, k.flight.value.sample);
    }
  }

  lemma LiveParts(xs: seq<Sample>, history: seq<Sample>, horizon: int)
    requires Holds(xs, history, horizon) && Ascending(history)
    ensures SameSteps(Since(xs, horizon), Since(history, horizon))
  {
    var cutoff :| cutoff <= horizon && HoldsFrom(xs, history, cutoff);
    SinceAscending(history, cutoff);
    SameStepsSince(xs, Since(history, cutoff), horizon);
    SinceSince(history, cutoff, horizon);
  }

  // ----- windows computed from memory -----

  /**
    In every reachable state a window computed from memory is the integral of the committed history,
    except that nothing before the first sample still in memory is credited.
   */
  lemma WindowIsExact(s: State, key: string, a: int, b: int)
    requires Inv(s)
    ensures Measure(ListOf(s.memory, key), a, b)
         == if ListOf(s.memory, key) == [] then NO_DATA
            else Summary(KeyAt(s, key).Settled(), Max(a, ListOf(s.memory, key)[0].at), b)
  {
    var k := KeyAt(s, key);
    assert Sound(k, s.clock, s.retention);
    if k.window != [] {
      SettledAscending(k, s.clock, s.retention);
      HeldWindow(k.window, k.Settled(), s.clock - s.retention, a, b);
    }
  }

  lemma SettledAscending(k: KeyState, clock: int, retention: nat)
    requires LogSound(k, clock, retention)
    ensures Ascending(k.Settled())
  {
  }

  lemma HeldWindow(xs: seq<Sample>, history: seq<Sample>, horizon: int, a: int, b: int)
    requires Holds(xs, history, horizon) && Ascending(history) && xs != []
    ensures Measure(xs, a, b) == Summary(history, Max(a, xs[0].at), b)
  {
    var cutoff :| cutoff <= horizon && HoldsFrom(xs, history, cutoff);
    MeasureIsIntegral(xs, a, b);
    SummaryFromFirst(xs, a, b);
    RetainedAgrees(xs, history, cutoff, Max(a, xs[0].at), b);
  }

  /** Two runs that committed the same samples report the same, whatever was restarted or pruned in between. */
  lemma SameCommitsSameReport(s: State, t: State, key: string, a: int, b: int)
    requires Inv(s) && Inv(t) && KeyAt(s, key).Settled() == KeyAt(t, key).Settled()
    requires ListOf(s.memory, key) != [] && ListOf(s.memory, key)[0].at <= a
    requires ListOf(t.memory, key) != [] && ListOf(t.memory, key)[0].at <= a
    ensures Measure(ListOf(s.memory, key), a, b) == Measure(ListOf(t.memory, key), a, b)
  {
    WindowIsExact(s, key, a, b);
    WindowIsExact(t, key, a, b);
  }

  // ----- a run and the same run without its restarts -----

  /** Finishing open Records without committing anything more: a write not yet made fails, a made one reaches memory. */
  predicate Settles(step: Step) {
    step.Insert? || step.Decide? || (step.Append? && !step.commits) || (step.Prune? && !step.commits)
  }

  predicate Settling(steps: seq<Step>) {
    forall i :: 0 <= i < |steps| ==> Settles(steps[i])
  }

  /**
    `other` is the run `steps` of a process that never stopped: step for step the same, but where the
    process stopped and started again, it finished its open Records and time passed.
   */
  ghost predicate Uninterrupted(other: seq<Step>, steps: seq<Step>)
    decreases |steps|
  {
    if steps == [] then other == []
    else
      var step := steps[|steps| - 1];
      if step.Restart? then
        exists before, settling ::
          Uninterrupted(before, steps[..|steps| - 1]) && Settling(settling) &&
              other == before + settling + [Tick(step.now)]
      else other != [] && Uninterrupted(other[..|other| - 1], steps[..|steps| - 1]) && other[|other| - 1] == step
  }

  lemma {:induction false} RunAppend(s: State, first: seq<Step>, second: seq<Step>)
    requires Run(s, first).Some?
    ensures Run(s, first + second) == Run(Run(s, first).value, second)
  {
    if second == [] {
      assert first + second == first;
    } else {
      var n := |second| - 1;
      RunAppend(s, first, second[..n]);
      assert (first + second)[..|first + second| - 1] == first + second[..n];
    }
  }

  /** `u` is `t` with some Records finished and nothing more committed. */
  predicate Settled(t: State, u: State, flights: map<string, Flight>) {
    u.retention == t.retention && u.clock == t.clock && u.log == t.log && u.flights == flights
  }

  lemma RunOne(t: State, step: Step)
    requires Enabled(t, step)
    ensures Run(t, [step]) == Some(Next(t, step))
  {
    assert [step][..0] == [];
  }

  lemma SettleOne(t: State, key: string) returns (steps: seq<Step>)
    requires key in t.flights
    ensures Settling(steps) && Run(t, steps).Some? && Settled(t, Run(t, steps).value, t.flights - {key})
  {
    if t.flights[key].phase == Clocked {
      steps := [Append(key, false)];
      RunOne(t, Append(key, false));
    } else if t.flights[key].phase == Swept {
      steps := SettleSwept(t, key);
    } else if t.flights[key].phase == Decided {
      steps := SettleDecided(t, key);
    } else {
      var u := NextPhase(t, Decide(key), key);
      var rest := SettleDecided(u, key);
      steps := OneStepFirst(t, Decide(key), u, rest, t.flights - {key});
    }
  }

  lemma SettleSwept(t: State, key: string) returns (steps: seq<Step>)
    requires key in t.flights && t.flights[key].phase == Swept
    ensures Settling(steps) && Run(t, steps).Some? && Settled(t, Run(t, steps).value, t.flights - {key})
  {
    steps := [Insert(key)];
    RunOne(t, Insert(key));
  }

  lemma SettleDecided(t: State, key: string) returns (steps: seq<Step>)
    requires key in t.flights && t.flights[key].phase == Decided
    ensures Settling(steps) && Run(t, steps).Some? && Settled(t, Run(t, steps).value, t.flights - {key})
  {
    var u := NextPhase(t, Prune(key, false), key);
    var rest := SettleSwept(u, key);
    steps := OneStepFirst(t, Prune(key, false), u, rest, t.flights - {key});
  }

  /** The decision and the prune of a Record that commits nothing more. */
  lemma NextPhase(t: State, step: Step, key: string) returns (u: State)
    requires (step == Decide(key) || step == Prune(key, false)) && Enabled(t, step)
    ensures u == Next(t, step) && Settled(t, u, u.flights)
    ensures key in u.flights && u.flights - {key} == t.flights - {key}
    ensures u.flights[key].phase == if step.Decide? then Decided else Swept
  {
    u := Next(t, step);
  }

  lemma OneStepFirst(t: State, step: Step, u: State, rest: seq<Step>, flights: map<string, Flight>)
    returns (steps: seq<Step>)
    requires Enabled(t, step) && u == Next(t, step) && Settled(t, u, u.flights) && Settles(step)
    requires Settling(rest) && Run(u, rest).Some? && Settled(u, Run(u, rest).value, flights)
    ensures Settling(steps) && Run(t, steps).Some? && Settled(t, Run(t, steps).value, flights)
  {
    RunOne(t, step);
    RunAppend(t, [step], rest);
    SettlesFirst(step, rest);
    steps := [step] + rest;
  }

  lemma SettlesFirst(step: Step, rest: seq<Step>)
    requires Settles(step) && Settling(rest)
    ensures Settling([step] + rest)
  {
  }

  /** Every open Record can be finished. */
  lemma {:induction false} SettleAll(t: State) returns (steps: seq<Step>)
    ensures Settling(steps) && Run(t, steps).Some? && Settled(t, Run(t, steps).value, map[])
    decreases |t.flights|
  {
    if t.flights == map[] {
      steps := [];
    } else {
      var key :| key in t.flights;
      var first := SettleOne(t, key);
      var u := Run(t, first).value;
      assert |u.flights| < |t.flights| by {
        assert u.flights.Keys == t.flights.Keys - {key};
        assert |u.flights| == |u.flights.Keys| && |t.flights| == |t.flights.Keys|;
      }
      var rest := SettleAll(u);
      RunAppend(t, first, rest);
      steps := first + rest;
    }
  }

  /** `s` has been restarted where `t` has not: same commits, and memory that forgot at most older samples. */
  ghost predicate Shadows(s: State, t: State) {
    && s.retention == t.retention && s.clock == t.clock && s.log == t.log && s.flights == t.flights
    && forall key :: Remembers(s, t, key)
  }

  ghost predicate Remembers(s: State, t: State, key: string) {
    Holds(ListOf(s.memory, key), ListOf(t.memory, key), s.clock - s.retention)
  }

  lemma ShadowStep(s: State, t: State, step: Step)
    requires Inv(s) && Inv(t) && Shadows(s, t) && Enabled(s, step) && !step.Restart?
    ensures Enabled(t, step) && Shadows(Next(s, step), Next(t, step))
  {
    SharedStep(s, t, step);
    forall key ensures Remembers(Next(s, step), Next(t, step), key) {
      var k, l := KeyAt(s, key), KeyAt(t, key);
      assert Remembers(s, t, key) && Sound(l, s.clock, s.retention);
      var k1 := NextIsEffect(s, step, key);
      var l1 := NextIsEffect(t, step, key);
      WindowMoves(k, step, key, s.clock, s.retention, PruneCut(s, step));
      WindowMoves(l, step, key, s.clock, s.retention, PruneCut(t, step));
      ShadowKey(k, l, step, key, s.clock, s.retention);
    }
  }

  /** What a step does to clock, log and open Records depends on nothing else. */
  lemma SharedStep(s: State, t: State, step: Step)
    requires s.retention == t.retention && s.clock == t.clock && s.log == t.log && s.flights == t.flights
    requires Enabled(s, step) && !step.Restart?
    ensures Enabled(t, step)
    ensures var u, v := Next(s, step), Next(t, step);
            u.retention == v.retention && u.clock == v.clock && u.log == v.log && u.flights == v.flights
  {
  }

  lemma ShadowKey(k: KeyState, l: KeyState, step: Step, key: string, clock: int, retention: nat)
    requires Sound(l, clock, retention) && Holds(k.window, l.window, clock - retention) && k.flight == l.flight
    requires Allowed(l, step, key, clock, retention) && !step.Restart?
    ensures Holds(MovedWindow(k, step, key, retention), MovedWindow(l, step, key, retention),
        ClockAfter(clock, step) - retention)
  {
    if step.Insert? && step.key == key {
      ShadowMoved(k, l, step, key, clock, retention);
    } else {
      HoldsLonger(k.window, l.window, clock - retention, ClockAfter(clock, step) - retention);
    }
  }

  /** What a step other than a restart leaves in memory. */
  function MovedWindow(k: KeyState, step: Step, key: string, retention: nat): seq<Sample> {
    if step.Insert? && step.key == key && k.flight.Some? then
      Since(k.window + [k.flight.value.sample], k.flight.value.sample.at - retention)
    else k.window
  }

  lemma WindowMoves(k: KeyState, step: Step, key: string, clock: int, retention: nat, cut: Option<int>)
    requires Allowed(k, step, key, clock, retention) && !step.Restart?
    ensures Effect(k, step, key, clock, retention, cut).window == MovedWindow(k, step, key, retention)
  {
  }

  lemma ShadowMoved(k: KeyState, l: KeyState, step: Step, key: string, clock: int, retention: nat)
    requires LogSound(l, clock, retention) && Holds(l.window, l.Settled(), clock - retention)
    requires Holds(k.window, l.window, clock - retention) && k.flight == l.flight
    requires Allowed(l, step, key, clock, retention) && step.Insert? && step.key == key
    ensures Holds(MovedWindow(k, step, key, retention), MovedWindow(l, step, key, retention), clock - retention)
  {
    var sample := l.flight.value.sample;
    InsertBoth(k.window, l, sample, clock, retention, k.window + [sample], l.window + [sample]);
  }

  lemma InsertBoth(window: seq<Sample>, l: KeyState, sample: Sample, clock: int, retention: nat, xs: seq<Sample>,
        ys: seq<Sample>)
    requires LogSound(l, clock, retention) && l.flight == Some(Flight(sample, Swept))
    requires Holds(l.window, l.Settled(), clock - retention) && Holds(window, l.window, clock - retention)
    requires xs == window + [sample] && ys == l.window + [sample]
    ensures Holds(Since(xs, sample.at - retention), Since(ys, sample.at - retention), clock - retention)
  {
    ReadyToInsert(l, sample, clock, retention);
    ShadowInsert(window, l.window, l.Settled(), sample, clock - retention);
    TrimBoth(xs, ys, clock - retention, sample.at - retention);
  }

  /** A Record about to reach memory is no older than what was committed before it, and still live. */
  lemma ReadyToInsert(l: KeyState, sample: Sample, clock: int, retention: nat)
    requires LogSound(l, clock, retention) && l.flight == Some(Flight(sample, Swept))
    ensures Ascending(l.Settled()) && UpTo(l.Settled(), sample.at)
    ensures sample.at - retention <= clock - retention <= sample.at
  {
    assert l.log == l.Settled() + [sample];
    AscendingAppend(l.Settled(), sample);
  }

  lemma ShadowInsert(window: seq<Sample>, other: seq<Sample>, settled: seq<Sample>, sample: Sample, horizon: int)
    requires Holds(other, settled, horizon) && Holds(window, other, horizon)
    requires Ascending(settled) && UpTo(settled, sample.at) && horizon <= sample.at
    ensures Holds(window + [sample], other + [sample], horizon) && Ascending(other + [sample])
  {
    HoldsUpTo(other, settled, horizon, sample.at);
    AscendingAppend(other, sample);
    HoldsAppend(window, other, horizon, sample);
  }

  lemma TrimBoth(xs: seq<Sample>, ys: seq<Sample>, horizon: int, trim: int)
    requires Holds(xs, ys, horizon) && Ascending(ys) && trim <= horizon
    ensures Holds(Since(xs, trim), Since(ys, trim), horizon)
  {
    var cutoff :| cutoff <= horizon && HoldsFrom(xs, ys, cutoff);
    SinceAscending(xs, trim);
    SinceAscending(ys, cutoff);
    SameStepsSince(xs, Since(ys, cutoff), trim);
    SinceSince(ys, cutoff, trim);
    SinceSince(ys, trim, cutoff);
    assert HoldsFrom(Since(xs, trim), Since(ys, trim), cutoff);
  }

  /** Stopping at any point, in the middle of Records or not, against finishing them first. */
  lemma ShadowStop(s: State, u: State, now: int)
    requires Inv(s) && Inv(u) && Settled(s, u, map[]) && Enabled(s, Restart(now))
    ensures Enabled(u, Tick(now)) && Shadows(Next(s, Restart(now)), Next(u, Tick(now)))
  {
    forall key ensures Remembers(Next(s, Restart(now)), Next(u, Tick(now)), key) {
      ShadowStopKey(s, u, now, key);
    }
  }

  lemma ShadowStopKey(s: State, u: State, now: int, key: string)
    requires Inv(s) && Inv(u) && Settled(s, u, map[]) && Enabled(s, Restart(now))
    ensures Holds(ListOf(Next(s, Restart(now)).memory, key), ListOf(u.memory, key), now - s.retention)
  {
    var k, l := KeyAt(s, key), KeyAt(u, key);
    assert Sound(k, s.clock, s.retention) && Sound(l, s.clock, s.retention);
    var after := NextIsEffect(s, Restart(now), key);
    ShadowRestart(k, l, s.clock, now, s.retention);
  }

  lemma ShadowRestart(k: KeyState, l: KeyState, clock: int, now: int, retention: nat)
    requires Sound(k, clock, retention) && Sound(l, clock, retention) && k.log == l.log && l.flight == None
    requires clock < now
    ensures Holds(Within(k.stored, now - retention, Some(now)), l.window, now - retention)
  {
    var live := now - retention;
    LoadedIsLive(k, clock, now, retention);
    HoldsLonger(k.stored, k.log, clock - retention, live);
    HoldsLonger(l.window, l.Settled(), clock - retention, live);
    BothLive(k.stored, l.window, l.log, live);
  }

  lemma BothLive(xs: seq<Sample>, ys: seq<Sample>, history: seq<Sample>, live: int)
    requires Holds(xs, history, live) && Holds(ys, history, live) && Ascending(history)
    ensures Holds(Since(xs, live), ys, live)
  {
    LiveParts(xs, history, live);
    LiveParts(ys, history, live);
    SinceAscending(xs, live);
    assert HoldsFrom(Since(xs, live), ys, live);
  }

  /** A state that shadows another can do so one step longer; at a restart the other one finishes its Records. */
  lemma ShadowNext(s: State, u: State, t: State, other: seq<Step>, steps: seq<Step>) returns (more: seq<Step>)
    requires Inv(s) && Inv(t) && Inv(u) && Shadows(u, t) && Run(s, other) == Some(t)
    requires steps != [] && Uninterrupted(other, steps[..|steps| - 1]) && Enabled(u, steps[|steps| - 1])
    ensures Uninterrupted(more, steps) && Run(s, more).Some?
    ensures Shadows(Next(u, steps[|steps| - 1]), Run(s, more).value)
  {
    var step := steps[|steps| - 1];
    if step.Restart? {
      var settling := SettleAll(t);
      var v := Run(t, settling).value;
      RunKeepsInv(t, settling);
      ShadowStop(u, v, step.now);
      RunAppend(s, other, settling);
      RunOne(v, Tick(step.now));
      RunAppend(s, other + settling, [Tick(step.now)]);
      more := other + settling + [Tick(step.now)];
    } else {
      ShadowStep(u, t, step);
      RunOne(t, step);
      RunAppend(s, other, [step]);
      more := other + [step];
      assert more[..|more| - 1] == other;
    }
  }

  lemma {:induction false} ShadowRun(s: State, steps: seq<Step>) returns (other: seq<Step>)
    requires Inv(s) && Run(s, steps).Some?
    ensures Uninterrupted(other, steps) && Run(s, other).Some?
    ensures Shadows(Run(s, steps).value, Run(s, other).value)
  {
    if steps == [] {
      other := [];
      forall key ensures Remembers(s, s, key) {
        assert Sound(KeyAt(s, key), s.clock, s.retention);
        HoldsItself(ListOf(s.memory, key), s.clock - s.retention);
      }
    } else {
      var n := |steps| - 1;
      var before := ShadowRun(s, steps[..n]);
      RunKeepsInv(s, steps[..n]);
      RunKeepsInv(s, before);
      other := ShadowNext(s, Run(s, steps[..n]).value, Run(s, before).value, before, steps);
    }
  }

  /** Where `s` remembers anything of a key, it reports what `t` reports. */
  ghost predicate SameReports(s: State, t: State) {
    forall key, a, b :: SameReport(s, t, key, a, b)
  }

  ghost predicate SameReport(s: State, t: State, key: string, a: int, b: int) {
    ListOf(s.memory, key) != [] && ListOf(s.memory, key)[0].at <= a ==>
      Measure(ListOf(s.memory, key), a, b) == Measure(ListOf(t.memory, key), a, b)
  }

  /**
    Restarting cannot be seen.  A sampler stopped at any points, in the middle of Records too, and rehydrated
    from the store reports the same as one that never stopped and committed the same samples, for every
    key and every window that starts at or after the first sample the restarted one has.
   */
  lemma RestartsAreInvisible(s: State, steps: seq<Step>)
    requires Inv(s) && Run(s, steps).Some?
    ensures exists other ::
              && Uninterrupted(other, steps) && Run(s, other).Some?
              && Run(s, other).value.log == Run(s, steps).value.log
              && SameReports(Run(s, steps).value, Run(s, other).value)
  {
    var other := ShadowRun(s, steps);
    RunKeepsInv(s, other);
    var t, u := Run(s, steps).value, Run(s, other).value;
    forall key, a, b ensures SameReport(t, u, key, a, b) {
      ShadowReports(t, u, key, a, b);
    }
    assert Uninterrupted(other, steps) && Run(s, other).Some?;
  }

  lemma ShadowReports(t: State, u: State, key: string, a: int, b: int)
    requires Inv(u) && Shadows(t, u)
    ensures SameReport(t, u, key, a, b)
  {
    var k, l := KeyAt(t, key), KeyAt(u, key);
    assert Remembers(t, u, key) && Sound(l, u.clock, u.retention);
    if k.window != [] && k.window[0].at <= a {
      HeldWindow(k.window, l.window, t.clock - t.retention, a, b);
      MeasureIsIntegral(l.window, a, b);
    }
  }

  // ----- ended windows -----

  /** A history and, on top of it, samples at or after b. */
  ghost predicate GrownBy(before: seq<Sample>, xs: seq<Sample>, b: int) {
    xs == before || (xs != [] && b <= xs[|xs| - 1].at && GrownBy(before, xs[..|xs| - 1], b))
  }

  lemma {:induction false} GrowthIsInvisible(before: seq<Sample>, xs: seq<Sample>, b: int, t: int)
    requires GrownBy(before, xs, b) && t < b
    ensures StateAt(xs, t) == StateAt(before, t)
  {
    if xs != before {
      GrowthIsInvisible(before, xs[..|xs| - 1], b, t);
    }
  }

  /** What has been committed since, an open Record included, is no older than b. */
  ghost predicate GrewAfter(before: seq<Sample>, k: KeyState, b: int) {
    && GrownBy(before, k.log, b) && GrownBy(before, k.Settled(), b)
    && (k.flight.Some? ==> b <= k.flight.value.sample.at)
  }

  lemma GrowsOneStep(before: seq<Sample>, k: KeyState, step: Step, key: string, clock: int, retention: nat,
                     pruned: Option<int>, b: int)
    requires GrewAfter(before, k, b) && b <= clock && Allowed(k, step, key, clock, retention)
    requires LogSound(k, clock, retention)
    ensures GrewAfter(before, Effect(k, step, key, clock, retention, pruned), b) && b <= ClockAfter(clock, step)
  {
    var t := Effect(k, step, key, clock, retention, pruned);
    if step.Append? && step.key == key && step.commits {
      assert t.log[..|t.log| - 1] == k.log;
    } else {
      assert t.log == k.log;
    }
  }

  lemma {:induction false} LogGrowsAfter(s: State, steps: seq<Step>, key: string, b: int)
    requires Inv(s) && Run(s, steps).Some? && b <= s.clock && OpenSince(s, key, b)
    ensures GrewAfter(KeyAt(s, key).Settled(), KeyAt(Run(s, steps).value, key), b)
    ensures b <= Run(s, steps).value.clock
  {
    if steps == [] {
      GrewNothing(s, key, b);
    } else {
      var n := |steps| - 1;
      LogGrowsAfter(s, steps[..n], key, b);
      RunKeepsInv(s, steps[..n]);
      var t := Run(s, steps[..n]).value;
      assert Sound(KeyAt(t, key), t.clock, t.retention);
      var after := NextIsEffect(t, steps[n], key);
      GrowsOneStep(KeyAt(s, key).Settled(), KeyAt(t, key), steps[n], key, t.clock, t.retention, PruneCut(t, steps[n]),
          b);
    }
  }

  /** An open Record of the key, if there is one, read its clock at b or later. */
  predicate OpenSince(s: State, key: string, b: int) {
    key in s.flights ==> b <= s.flights[key].sample.at
  }

  lemma GrewNothing(s: State, key: string, b: int)
    requires Inv(s) && OpenSince(s, key, b)
    ensures GrewAfter(KeyAt(s, key).Settled(), KeyAt(s, key), b)
  {
    var k := KeyAt(s, key);
    assert Sound(k, s.clock, s.retention);
    assert k.log != k.Settled() ==> k.log[..|k.log| - 1] == k.Settled();
  }

  /**
    A window that has ended is frozen: no later run of Records, with whatever thresholds, changes it as
    long as memory still reaches back to its start and no Record from before its end is open.
   */
  lemma EndedWindowsAreFrozen(s: State, steps: seq<Step>, key: string, a: int, b: int)
    requires Inv(s) && Run(s, steps).Some? && b <= s.clock && OpenSince(s, key, b)
    requires ListOf(s.memory, key) != [] && ListOf(s.memory, key)[0].at <= a
    requires var window := ListOf(Run(s, steps).value.memory, key); window != [] && window[0].at <= a
    ensures Measure(ListOf(Run(s, steps).value.memory, key), a, b) == Measure(ListOf(s.memory, key), a, b)
  {
    RunKeepsInv(s, steps);
    LogGrowsAfter(s, steps, key, b);
    WindowIsExact(s, key, a, b);
    WindowIsExact(Run(s, steps).value, key, a, b);
    SameBefore(KeyAt(s, key).Settled(), KeyAt(Run(s, steps).value, key).Settled(), b, a, b);
  }

  lemma SameBefore(before: seq<Sample>, xs: seq<Sample>, from: int, a: int, b: int)
    requires GrownBy(before, xs, from) && b <= from
    ensures Summary(xs, a, b) == Summary(before, a, b)
  {
    forall t | a <= t < b ensures StateAt(xs, t) == StateAt(before, t) {
      GrowthIsInvisible(before, xs, from, t);
    }
    SummaryCongruent(xs, before, a, b);
  }

  // ----- retention -----

  /** While the newest committed sample is live, pruning and trimming leave it in place. */
  lemma NewestIsKept(s: State, key: string)
    requires Inv(s) && ListOf(s.log, key) != [] && s.clock - s.retention <=
        ListOf(s.log, key)[|ListOf(s.log, key)| - 1].at
    ensures var k, newest := KeyAt(s, key), ListOf(s.log, key)[|ListOf(s.log, key)| - 1];
            && k.stored != [] && k.stored[|k.stored| - 1] == newest
            && (k.flight.None? ==> k.window != [] && k.window[|k.window| - 1] == newest)
  {
    var k := KeyAt(s, key);
    assert Sound(k, s.clock, s.retention);
    LastIsHeld(k.stored, k.log, s.clock - s.retention);
    assert k.flight.None? ==> k.Settled() == k.log;
    if k.flight.None? {
      LastIsHeld(k.window, k.log, s.clock - s.retention);
    }
  }

  lemma LastIsHeld(xs: seq<Sample>, history: seq<Sample>, horizon: int)
    requires Holds(xs, history, horizon) && Ascending(history) && history != [] && horizon <= history[|history| - 1].at
    ensures xs != [] && xs[|xs| - 1] == history[|history| - 1]
  {
    var cutoff :| cutoff <= horizon && HoldsFrom(xs, history, cutoff);
    var last := history[|history| - 1];
    var kept := Since(history, cutoff);
    assert kept[|kept| - 1] == last;
    assert StateAt(kept, last.at) == Some(last) == StateAt(xs, last.at);
    StateAtIsASample(xs, last.at);
    HoldsUpTo(xs, history, horizon, last.at);
    assert StateAt(xs, last.at) == Some(xs[|xs| - 1]);
  }

  /** The Record that set `lastPrune` has not run its prune yet. */
  predicate PruneIsOpen(s: State, key: string) {
    && key in s.due && key in s.flights && s.flights[key].phase == Decided
    && s.lastPrune == Some(s.flights[key].sample.at)
  }

  /** Past its decision a Record is less than an interval from `lastPrune`; only there can its prune be due. */
  predicate InTime(flight: Option<Flight>, due: bool, lastPrune: Option<int>) {
    && (due ==> flight.Some? && flight.value.phase == Decided)
    && (flight.Some? && (flight.value.phase == Decided || flight.value.phase == Swept) ==>
          !PruneDue(lastPrune, flight.value.sample.at))
  }

  predicate DecidedInTime(s: State, key: string) {
    InTime(KeyAt(s, key).flight, key in s.due, s.lastPrune)
  }

  /** No stored sample is older than the retention before t. */
  ghost predicate AllFrom(s: State, t: int) {
    forall key :: OldestFrom(ListOf(s.stored, key), t - s.retention)
  }

  /** No stored sample is older than the retention before `lastPrune`, unless the prune of that time is still open. */
  ghost predicate Bounded(s: State) {
    && (forall key :: DecidedInTime(s, key))
    && (s.lastPrune.Some? ==>
          && s.lastPrune.value <= s.clock
          && ((exists key :: PruneIsOpen(s, key)) || AllFrom(s, s.lastPrune.value)))
  }

  predicate OldestFrom(xs: seq<Sample>, t: int) {
    xs != [] ==> t <= xs[0].at
  }

  predicate AllPrunesCommit(steps: seq<Step>) {
    forall i :: 0 <= i < |steps| && steps[i].Prune? ==> steps[i].commits
  }

  lemma {:induction false} FirstSince(xs: seq<Sample>, cutoff: int)
    ensures OldestFrom(Since(xs, cutoff), cutoff)
  {
    if xs != [] {
      FirstSince(xs[..|xs| - 1], cutoff);
    }
  }

  lemma {:induction false} FirstKept(xs: seq<Sample>, cutoff: int, t: int)
    requires Ascending(xs) && OldestFrom(xs, t)
    ensures OldestFrom(Since(xs, cutoff), t)
  {
    if xs != [] {
      AscendingPair(xs, 0, |xs| - 1);
      FirstKept(xs[..|xs| - 1], cutoff, t);
    }
  }

  lemma {:induction false} FirstOfUpsert(xs: seq<Sample>, s: Sample, t: int)
    requires OldestFrom(xs, t) && t <= s.at
    ensures OldestFrom(Upsert(xs, s), t)
  {
    if xs != [] && s.at < xs[|xs| - 1].at {
      FirstOfUpsert(xs[..|xs| - 1], s, t);
    }
  }

  lemma StepKeepsBound(s: State, step: Step)
    requires Inv(s) && Bounded(s) && Enabled(s, step) && (step.Prune? ==> step.commits)
    ensures Bounded(Next(s, step))
  {
    if step.Decide? {
      assert Sound(KeyAt(s, step.key), s.clock, s.retention);
    }
    forall key ensures DecidedInTime(Next(s, step), key) {
      assert DecidedInTime(s, key);
      StepKeepsDecision(s, step, key);
    }
    StepKeepsOldest(s, step);
  }

  lemma StepKeepsDecision(s: State, step: Step, key: string)
    requires DecidedInTime(s, key) && Enabled(s, step)
    ensures DecidedInTime(Next(s, step), key)
  {
    var at := if step.Decide? then s.flights[step.key].sample.at else s.clock;
    var after := NextIsEffect(s, step, key);
    DecisionIs(s, step, key, at);
    EffectInTime(KeyAt(s, key), step, key, s.clock, s.retention, PruneCut(s, step), key in s.due, s.lastPrune, at);
  }

  /** What a step leaves of `lastPrune`, and of a key's due prune; `at` is the clock of a Record that decides. */
  function LastPruneAfter(step: Step, lastPrune: Option<int>, at: int): Option<int> {
    if step.Restart? then None else if step.Decide? && PruneDue(lastPrune, at) then Some(at) else lastPrune
  }

  predicate DueAfter(step: Step, key: string, due: bool, lastPrune: Option<int>, at: int) {
    if step.Restart? || (step.Prune? && step.key == key) then false
    else if step.Decide? && step.key == key then PruneDue(lastPrune, at)
    else due
  }

  lemma DecisionIs(s: State, step: Step, key: string, at: int)
    requires Enabled(s, step) && (step.Decide? ==> at == s.flights[step.key].sample.at)
    ensures Next(s, step).lastPrune == LastPruneAfter(step, s.lastPrune, at)
    ensures key in Next(s, step).due <==> DueAfter(step, key, key in s.due, s.lastPrune, at)
  {
  }

  lemma EffectInTime(k: KeyState, step: Step, key: string, clock: int, retention: nat, pruned: Option<int>, due: bool,
                     lastPrune: Option<int>, at: int)
    requires Allowed(k, step, key, clock, retention) && InTime(k.flight, due, lastPrune)
    requires step.Decide? && step.key == key ==> at == k.flight.value.sample.at
    ensures InTime(Effect(k, step, key, clock, retention, pruned).flight,
                   DueAfter(step, key, due, lastPrune, at), LastPruneAfter(step, lastPrune, at))
  {
  }

  lemma PruneOpens(s: State, key: string)
    requires Enabled(s, Decide(key)) && PruneDue(s.lastPrune, s.flights[key].sample.at)
    ensures PruneIsOpen(Next(s, Decide(key)), key)
  {
  }

  lemma PruneStaysOpen(s: State, step: Step, key: string)
    requires PruneIsOpen(s, key) && Enabled(s, step) && !step.Restart? && !(step.Prune? && step.key == key)
    requires step.Decide? ==> !PruneDue(s.lastPrune, s.flights[step.key].sample.at)
    ensures PruneIsOpen(Next(s, step), key)
  {
  }

  /** Either the prune that set `lastPrune` is open, or it has run and nothing older has been written since. */
  lemma StepKeepsOldest(s: State, step: Step)
    requires Inv(s) && Bounded(s) && Enabled(s, step) && (step.Prune? ==> step.commits)
    ensures var t := Next(s, step);
            t.lastPrune.Some? ==> (exists key :: PruneIsOpen(t, key)) || AllFrom(t, t.lastPrune.value)
  {
    if step.Decide? && PruneDue(s.lastPrune, s.flights[step.key].sample.at) {
      PruneOpens(s, step.key);
    } else if key :| PruneIsOpen(s, key) && !step.Restart? && !(step.Prune? && step.key == key) {
      PruneStaysOpen(s, step, key);
    } else if !step.Restart? && s.lastPrune.Some? {
      forall key ensures OldestFrom(ListOf(Next(s, step).stored, key), s.lastPrune.value - s.retention) {
        BoundKey(s, step, key);
      }
    }
  }

  lemma BoundKey(s: State, step: Step, key: string)
    requires Inv(s) && Bounded(s) && Enabled(s, step) && !step.Restart? && s.lastPrune.Some?
    requires AllFrom(s, s.lastPrune.value) || (step.Prune? && step.commits && PruneIsOpen(s, step.key))
    ensures OldestFrom(ListOf(Next(s, step).stored, key), s.lastPrune.value - s.retention)
  {
    var k := KeyAt(s, key);
    assert Sound(k, s.clock, s.retention);
    var after := NextIsEffect(s, step, key);
    StrictIsAscending(k.stored);
    BoundEffect(k, step, key, s.clock, s.retention, PruneCut(s, step), s.lastPrune.value - s.retention);
  }

  lemma BoundEffect(k: KeyState, step: Step, key: string, clock: int, retention: nat, pruned: Option<int>, limit: int)
    requires LogSound(k, clock, retention) && Ascending(k.stored) && Allowed(k, step, key, clock, retention)
    requires limit <= clock - retention && !step.Restart?
    requires OldestFrom(k.stored, limit) || (step.Prune? && pruned == Some(limit))
    ensures OldestFrom(Effect(k, step, key, clock, retention, pruned).stored, limit)
  {
    if step.Append? && step.commits && step.key == key {
      FirstOfUpsert(k.stored, k.flight.value.sample, limit);
    } else if step.Prune? && pruned == Some(limit) {
      FirstSince(k.stored, limit);
    } else if step.Prune? && pruned.Some? {
      FirstKept(k.stored, pruned.value, limit);
    }
  }

  lemma {:induction false} RunKeepsBound(s: State, steps: seq<Step>)
    requires Inv(s) && Bounded(s) && AllPrunesCommit(steps)
    ensures Run(s, steps).Some? ==> Bounded(Run(s, steps).value)
  {
    if steps != [] && Run(s, steps).Some? {
      var n := |steps| - 1;
      assert forall i :: 0 <= i < n ==> steps[..n][i] == steps[i];
      RunKeepsBound(s, steps[..n]);
      RunKeepsInv(s, steps[..n]);
      StepKeepsBound(Run(s, steps[..n]).value, steps[n]);
    }
  }

  /**
    The store stays bounded.  In a run whose prunes commit, a Record taken at t that has decided on its prune
    leaves no sample of any key from before t less the retention and one prune interval, unless another
    Record's prune is still to come; and certainly when it is through its prune and no other Record is open.
   */
  lemma StoreStaysBounded(s: State, steps: seq<Step>, recorder: string, key: string)
    requires Inv(s) && Bounded(s) && AllPrunesCommit(steps) && Run(s, steps).Some?
    requires recorder in Run(s, steps).value.flights
    ensures var t := Run(s, steps).value;
            var phase, at := t.flights[recorder].phase, t.flights[recorder].sample.at;
            var bounded := OldestFrom(ListOf(t.stored, key), at - s.retention - 15 * 60 * 1_000_000_000);
            && (phase == Decided || phase == Swept ==> bounded || exists k :: PruneIsOpen(t, k))
            && (phase == Swept && t.flights.Keys == {recorder} ==> bounded)
  {
    RunKeepsBound(s, steps);
    SameRetention(s, steps);
    var t := Run(s, steps).value;
    assert DecidedInTime(t, recorder);
    if k :| PruneIsOpen(t, k) && t.flights.Keys == {recorder} {
      assert k == recorder;
    }
    if t.lastPrune.Some? && AllFrom(t, t.lastPrune.value) {
      assert OldestFrom(ListOf(t.stored, key), t.lastPrune.value - t.retention);
    }
  }

  /** While a prune is open, a Record of another key passes: it finds no prune due and leaves the store alone. */
  lemma OpenPruneIsPassed(s: State, key: string, other: string)
    requires Bounded(s) && PruneIsOpen(s, key) && other in s.flights && s.flights[other].phase == Stored
    requires s.flights[other].sample.at - s.flights[key].sample.at < 15 * 60 * 1_000_000_000
    ensures var t := Next(s, Decide(other));
            Enabled(t, Prune(other, true)) && Next(t, Prune(other, true)).stored == s.stored
  {
    assert DecidedInTime(s, other);
  }

  predicate NeverStops(steps: seq<Step>) {
    steps == [] || (NeverStops(steps[..|steps| - 1]) && !steps[|steps| - 1].Restart?)
  }

  /** The clocks of the Records of a run that found a prune due. */
  function PruneTimes(s: State, steps: seq<Step>): seq<int>
    requires Run(s, steps).Some?
  {
    if steps == [] then []
    else
      var n, step := |steps| - 1, steps[|steps| - 1];
      var before, t := PruneTimes(s, steps[..n]), Run(s, steps[..n]).value;
      if step.Decide? && step.key in Next(t, step).due then before + [t.flights[step.key].sample.at] else before
  }

  /** As long as the process runs, prunes are at least fifteen minutes apart. */
  lemma {:induction false} PrunesAreApart(s: State, steps: seq<Step>)
    requires Run(s, steps).Some? && NeverStops(steps)
    ensures var times := PruneTimes(s, steps);
            && (forall i :: 0 < i < |times| ==> times[i] - times[i - 1] >= 15 * 60 * 1_000_000_000)
            && (times != [] && s.lastPrune.Some? ==> times[0] - s.lastPrune.value >= 15 * 60 * 1_000_000_000)
            && Run(s, steps).value.lastPrune == if times == [] then s.lastPrune else Some(times[|times| - 1])
  {
    if steps != [] {
      var n := |steps| - 1;
      PrunesAreApart(s, steps[..n]);
      OnePrune(Run(s, steps[..n]).value, steps[n]);
    }
  }

  lemma OnePrune(t: State, step: Step)
    requires Enabled(t, step) && !step.Restart?
    ensures var prunes := step.Decide? && step.key in Next(t, step).due;
            && Next(t, step).lastPrune == (if prunes then Some(t.flights[step.key].sample.at) else t.lastPrune)
            && (prunes && t.lastPrune.Some? ==>
                  t.flights[step.key].sample.at - t.lastPrune.value >= 15 * 60 * 1_000_000_000)
  {
    if step.Decide? {
      DecisionIs(t, step, step.key, t.flights[step.key].sample.at);
    } else {
      DecisionIs(t, step, "", 0);
    }
  }

  /** An insert leaves no sample of the key in memory from before the retention. */
  lemma MemoryStaysBounded(s: State, key: string)
    requires Enabled(s, Insert(key))
    ensures forall x :: x in ListOf(Next(s, Insert(key)).memory, key) ==>
                          s.flights[key].sample.at - s.retention <= x.at
  {
    var after := NextIsEffect(s, Insert(key), key);
    SinceFloor(ListOf(s.memory, key) + [s.flights[key].sample], s.flights[key].sample.at - s.retention);
  }

  lemma {:induction false} SameRetention(s: State, steps: seq<Step>)
    ensures Run(s, steps).Some? ==> Run(s, steps).value.retention == s.retention
  {
    if steps != [] {
      SameRetention(s, steps[..|steps| - 1]);
    }
  }

  // ----- one Record alone -----

  function WrittenThrough(stored: Archive, key: string, sample: Sample, prune: bool, cutoff: int): Archive {
    if prune then TrimmedAll(Filed(stored, key, sample), cutoff) else Filed(stored, key, sample)
  }

  /** The state after a Record alone. */
  function AfterRecord(s: State, key: string, sample: Sample, prunes: bool): State {
    var due := PruneDue(s.lastPrune, sample.at);
    s.(stored := WrittenThrough(s.stored, key, sample, due && prunes, sample.at - s.retention),
       lastPrune := if due then Some(sample.at) else s.lastPrune,
       due := s.due - {key},
       log := s.log[key := ListOf(s.log, key) + [sample]],
       memory := Inserted(s.memory, key, sample, sample.at - s.retention))
  }

  function RecordSteps(key: string, powerW: Float64, activeW: Float64, prunes: bool): seq<Step> {
    [Begin(key, powerW, activeW), Append(key, true), Decide(key), Prune(key, prunes), Insert(key)]
  }

  /** A Record that nothing interleaves with does what its five steps do one after the other. */
  lemma RecordIsItsSteps(s: State, key: string, powerW: Float64, activeW: Float64, prunes: bool)
    requires key !in s.flights
    ensures Run(s, RecordSteps(key, powerW, activeW, prunes))
         == Some(AfterRecord(s, key, Sample(s.clock, powerW, activeW), prunes))
  {
    var sample := Sample(s.clock, powerW, activeW);
    AppendDone(s, key, sample);
    DecideDone(s, key, sample);
    PruneDone(s, key, sample, prunes);
    InsertDone(s, key, sample, prunes);
    FiveSteps(s, Begin(key, powerW, activeW), AtClock(s, key, sample), Append(key, true), AtAppend(s, key, sample),
              Decide(key), AtDecide(s, key, sample), Prune(key, prunes), AtPrune(s, key, sample, prunes), Insert(key));
  }

  /** The state of a Record alone after its clock has been read, its append, its decision, and its prune. */
  function AtClock(s: State, key: string, sample: Sample): State {
    s.(flights := s.flights[key := Flight(sample, Clocked)])
  }

  function AtAppend(s: State, key: string, sample: Sample): State {
    s.(stored := Filed(s.stored, key, sample),
       log := s.log[key := ListOf(s.log, key) + [sample]],
       flights := s.flights[key := Flight(sample, Stored)])
  }

  function AtDecide(s: State, key: string, sample: Sample): State {
    var due := PruneDue(s.lastPrune, sample.at);
    s.(stored := Filed(s.stored, key, sample),
       lastPrune := if due then Some(sample.at) else s.lastPrune,
       due := if due then s.due + {key} else s.due - {key},
       log := s.log[key := ListOf(s.log, key) + [sample]],
       flights := s.flights[key := Flight(sample, Decided)])
  }

  function AtPrune(s: State, key: string, sample: Sample, prunes: bool): State {
    var due := PruneDue(s.lastPrune, sample.at);
    s.(stored := WrittenThrough(s.stored, key, sample, due && prunes, sample.at - s.retention),
       lastPrune := if due then Some(sample.at) else s.lastPrune,
       due := s.due - {key},
       log := s.log[key := ListOf(s.log, key) + [sample]],
       flights := s.flights[key := Flight(sample, Swept)])
  }

  lemma AppendDone(s: State, key: string, sample: Sample)
    requires key !in s.flights
    ensures Enabled(AtClock(s, key, sample), Append(key, true))
    ensures Next(AtClock(s, key, sample), Append(key, true)) == AtAppend(s, key, sample)
  {
    assert s.flights[key := Flight(sample, Clocked)][key := Flight(sample, Stored)] ==
        s.flights[key := Flight(sample, Stored)];
  }

  lemma DecideDone(s: State, key: string, sample: Sample)
    requires key !in s.flights
    ensures Enabled(AtAppend(s, key, sample), Decide(key))
    ensures Next(AtAppend(s, key, sample), Decide(key)) == AtDecide(s, key, sample)
  {
    assert s.flights[key := Flight(sample, Stored)][key := Flight(sample, Decided)] ==
        s.flights[key := Flight(sample, Decided)];
  }

  lemma PruneDone(s: State, key: string, sample: Sample, prunes: bool)
    requires key !in s.flights
    ensures Enabled(AtDecide(s, key, sample), Prune(key, prunes))
    ensures Next(AtDecide(s, key, sample), Prune(key, prunes)) == AtPrune(s, key, sample, prunes)
  {
    assert s.flights[key := Flight(sample, Decided)][key := Flight(sample, Swept)] ==
        s.flights[key := Flight(sample, Swept)];
    assert s.due + {key} - {key} == s.due - {key};
  }

  lemma InsertDone(s: State, key: string, sample: Sample, prunes: bool)
    requires key !in s.flights
    ensures Enabled(AtPrune(s, key, sample, prunes), Insert(key))
    ensures Next(AtPrune(s, key, sample, prunes), Insert(key)) == AfterRecord(s, key, sample, prunes)
  {
    assert s.flights[key := Flight(sample, Swept)] - {key} == s.flights;
  }

  lemma FiveSteps(s: State, a: Step, s1: State, b: Step, s2: State, c: Step, s3: State, d: Step, s4: State, e: Step)
    requires Enabled(s, a) && s1 == Next(s, a) && Enabled(s1, b) && s2 == Next(s1, b)
    requires Enabled(s2, c) && s3 == Next(s2, c) && Enabled(s3, d) && s4 == Next(s3, d) && Enabled(s4, e)
    ensures Run(s, [a, b, c, d, e]) == Some(Next(s4, e))
  {
    assert [a, b, c, d, e][..4] == [a, b, c, d] && [a, b, c, d][..3] == [a, b, c] && [a, b, c][..2] == [a, b];
    assert [a, b][..1] == [a] && [a][..0] == [];
    assert Run(s, []) == Some(s);
    assert Run(s, [a]) == Some(s1);
    assert Run(s, [a, b]) == Some(s2);
    assert Run(s, [a, b, c]) == Some(s3);
    assert Run(s, [a, b, c, d]) == Some(s4);
  }
}
