/** What holds over whole runs of the supervisor, whatever the interleaving. */
module SupervisorRuns {
  import opened Backoff
  import opened NameOrder
  import opened SupervisorModel
  import opened SupervisorInvariants

  // ---- Safety in every reachable state ----

  /** At most one live instance per name, and it is the recorded one; contexts are held or cancelled;
      Init precedes Start and each happens at most once per instance. */
  lemma {:induction false} ReachableInstances(s: Sup, steps: seq<Step>)
    requires Initial(s) && Possible(s, steps)
    ensures
      var t := Run(s, steps);
      && (forall i, j | 0 <= i < |t.instances| && 0 <= j < |t.instances| ::
            Live(t.instances[i].calls) && Live(t.instances[j].calls) && t.instances[i].name == t.instances[j].name ==> i == j)
      && (forall i :: 0 <= i < |t.instances| && Live(t.instances[i].calls) ==>
            t.instances[i].name in t.loaded && t.loaded[t.instances[i].name].instance == i)
      && (forall c :: 0 <= c < |t.contexts| ==>
            t.contexts[c].cancelled || (t.contexts[c].owner in t.loaded && t.loaded[t.contexts[c].owner].ctx == c))
      && (forall i, k :: 0 <= i < |t.instances| && 0 <= k < |t.instances[i].calls| ==>
            && (t.instances[i].calls[k].Init? ==> k == 0)
            && (t.instances[i].calls[k].Start? ==> k == 1 && t.instances[i].calls[0] == Init(true))
            && (t.instances[i].calls[k].Stop? ==> k >= 2 && t.instances[i].calls[1] == Start(true)))
  {
    RunKeepsInv(s, steps);
    var t := Run(s, steps);
    assert InstanceInv(t.loaded, t.instances) && ContextInv(t.loaded, t.contexts);
    CallOrder(t.instances);
    OneLiveInstance(t.loaded, t.instances);
  }

  lemma CallOrder(instances: seq<Instance>)
    requires CallsInv(instances)
    ensures forall i, k :: 0 <= i < |instances| && 0 <= k < |instances[i].calls| ==>
      && (instances[i].calls[k].Init? ==> k == 0)
      && (instances[i].calls[k].Start? ==> k == 1 && instances[i].calls[0] == Init(true))
      && (instances[i].calls[k].Stop? ==> k >= 2 && instances[i].calls[1] == Start(true))
  {
    assert forall i :: 0 <= i < |instances| ==> WellCalled(instances[i].calls);
  }

  lemma OneLiveInstance(loaded: map<string, Entry>, instances: seq<Instance>)
    requires LiveInv(loaded, instances)
    ensures forall i, j | 0 <= i < |instances| && 0 <= j < |instances| ::
      Live(instances[i].calls) && Live(instances[j].calls) && instances[i].name == instances[j].name ==> i == j
  {
  }

  /** Degraded modules are never stranded before shutdown, the events replay to the recorded states,
      Running means live, and loaded modules are registered and enabled. */
  lemma {:induction false} ReachableRecords(s: Sup, steps: seq<Step>, n: string)
    requires Initial(s) && Possible(s, steps) && n in Run(s, steps).loaded
    ensures
      var t := Run(s, steps);
      && n in t.registry && n in t.enabled
      && t.loaded[n].state in {Running, Degraded, Failed}
      && (t.loaded[n].state == Degraded && !t.lifeDone ==> n in t.timers || n in t.reports)
      && (t.reports[n] == 0 && n in t.hosted ==> n in Replay(t.events) && Replay(t.events)[n] == t.loaded[n].state)
      && (t.reports[n] == 0 && t.loaded[n].state == Running ==> Live(RecordedCalls(t.loaded, t.instances, n)))
  {
    RunKeepsInv(s, steps);
  }

  /** For a module that is not loaded the events never end in running or degraded. */
  lemma ReachableIdle(s: Sup, steps: seq<Step>, n: string)
    requires Initial(s) && Possible(s, steps) && n !in Run(s, steps).loaded && n in s.hosted
    ensures n in Replay(Run(s, steps).events) ==> Replay(Run(s, steps).events)[n] in {Initializing, Failed, Stopped}
  {
    RunKeepsInv(s, steps);
    RunKeepsConfig(s, steps);
  }

  /** One load schedules exactly min(restartAttempt, maxRestart - 1) restarts, and their delays add
      up to at most 1.05 times the capped geometric sum. */
  ghost predicate WithinBudget(e: Entry, maxRestart: int, bc: BackoffConfig)
    requires maxRestart >= 1
  {
    && |e.delays| == (if e.restartAttempt < maxRestart - 1 then e.restartAttempt else maxRestart - 1)
    && Total(e.delays) <= 1.05 * CappedSum(bc, maxRestart - 1)
  }

  lemma {:induction false} ReachableRestarts(s: Sup, steps: seq<Step>, n: string)
    requires Initial(s) && Possible(s, steps) && n in Run(s, steps).loaded
    requires s.maxRestart >= 1 && Sensible(s.backoff)
    ensures WithinBudget(Run(s, steps).loaded[n], s.maxRestart, s.backoff)
  {
    ReachableEntry(s, steps, n);
    EntryDelayBound(Run(s, steps).loaded[n], s.maxRestart, s.backoff);
  }

  lemma {:induction false} ReachableEntry(s: Sup, steps: seq<Step>, n: string)
    requires Initial(s) && Possible(s, steps) && n in Run(s, steps).loaded
    ensures EntryInv(Run(s, steps).loaded[n], s.maxRestart, s.backoff)
  {
    RunKeepsInv(s, steps);
    RunKeepsConfig(s, steps);
  }

  lemma {:induction false} EntryDelayBound(e: Entry, maxRestart: int, bc: BackoffConfig)
    requires EntryInv(e, maxRestart, bc) && maxRestart >= 1 && Sensible(bc)
    ensures WithinBudget(e, maxRestart, bc)
  {
    TotalBound(bc, e.delays);
    CappedSumMonotone(bc, |e.delays|, maxRestart - 1);
  }

  /** With the default settings no load ever waits more than 1575 milliseconds in all. */
  lemma {:induction false} DefaultRestartWait(s: Sup, steps: seq<Step>, n: string)
    requires Initial(s) && Possible(s, steps) && n in Run(s, steps).loaded
    requires s.maxRestart == 5 && s.backoff == DEFAULT_BACKOFF
    ensures Total(Run(s, steps).loaded[n].delays) <= 1575.0
  {
    DefaultCappedSum();
    ReachableRestarts(s, steps, n);
  }

  lemma {:induction false} StopEachFrame(s: Sup, names: seq<string>)
    ensures
      var t := StopEach(s, names);
      && t.registry == s.registry && t.hosted == s.hosted && t.maxRestart == s.maxRestart && t.backoff == s.backoff
      && t.enabled == s.enabled && t.disk == s.disk && t.timers == s.timers && t.reports == s.reports
      && t.lifeDone == s.lifeDone && t.loads == s.loads
      && (forall n :: n in t.loaded <==> n in s.loaded && n !in names)
      && (forall n :: n in t.loaded ==> t.loaded[n] == s.loaded[n])
  {
    if names != [] {
      StopEachFrame(s, names[..|names| - 1]);
      assert names == names[..|names| - 1] + [names[|names| - 1]];
    }
  }

  predicate SameConfig(s: Sup, t: Sup) {
    t.registry == s.registry && t.hosted == s.hosted && t.maxRestart == s.maxRestart && t.backoff == s.backoff
  }

  lemma LoadKeepsConfig(s: Sup, name: string, o: LoadOutcome)
    ensures SameConfig(s, Load(s, name, o))
  {
  }

  lemma ReportKeepsConfig(s: Sup, name: string, frac: real)
    ensures SameConfig(s, ReportFailure(s, name, frac))
  {
  }

  lemma FireKeepsConfig(s: Sup, name: string, initOk: bool, startOk: bool)
    ensures SameConfig(s, Fire(s, name, initOk, startOk))
  {
  }

  lemma {:induction false} StepKeepsConfig(s: Sup, step: Step)
    ensures SameConfig(s, Take(s, step))
  {
    match step
    case LoadStep(name, o) => LoadKeepsConfig(s, name, o);
    case UnloadStep(name, saveOk) =>
    case LifeStopStep =>
    case StopAllStep => StopEachFrame(s, Descending(s.loaded.Keys));
    case ReportStep(name, frac) => ReportKeepsConfig(s, name, frac);
    case FireStep(name, initOk, startOk) => FireKeepsConfig(s, name, initOk, startOk);
    case InFlightStep(name, frac) => ReportKeepsConfig(s.(reports := s.reports - multiset{name}), name, frac);
    case AbandonStep(name) =>
  }

  lemma {:induction false} RunKeepsConfig(s: Sup, steps: seq<Step>)
    ensures SameConfig(s, Run(s, steps))
  {
    if steps != [] {
      RunKeepsConfig(s, steps[..|steps| - 1]);
      StepKeepsConfig(Run(s, steps[..|steps| - 1]), steps[|steps| - 1]);
    }
  }

  // ---- Restarting settles ----

  function Left(e: Entry, maxRestart: int): nat {
    if e.restartAttempt < maxRestart then maxRestart - e.restartAttempt else 0
  }

  /** The failures that may still be answered with a restart, over all loaded modules. */
  ghost function Budget(loaded: map<string, Entry>, maxRestart: int): nat
    decreases |loaded|
  {
    if loaded == map[] then 0
    else
      var n :| n in loaded;
      Left(loaded[n], maxRestart) + Budget(loaded - {n}, maxRestart)
  }

  lemma {:induction false} BudgetPick(loaded: map<string, Entry>, maxRestart: int, name: string)
    requires name in loaded
    ensures Budget(loaded, maxRestart) == Left(loaded[name], maxRestart) + Budget(loaded - {name}, maxRestart)
    decreases |loaded|
  {
    var n :| n in loaded && Budget(loaded, maxRestart) == Left(loaded[n], maxRestart) + Budget(loaded - {n}, maxRestart);
    if n != name {
      BudgetPick(loaded - {n}, maxRestart, name);
      BudgetPick(loaded - {name}, maxRestart, n);
      assert loaded - {n} - {name} == loaded - {name} - {n};
    }
  }

  lemma BudgetUpdate(loaded: map<string, Entry>, maxRestart: int, name: string, e: Entry)
    requires name in loaded
    ensures Budget(loaded[name := e], maxRestart) - Left(e, maxRestart)
         == Budget(loaded, maxRestart) - Left(loaded[name], maxRestart)
  {
    BudgetPick(loaded, maxRestart, name);
    BudgetPick(loaded[name := e], maxRestart, name);
    assert loaded[name := e] - {name} == loaded - {name};
  }

  /** A bound on the goroutine steps still to come. */
  ghost function Work(s: Sup): nat {
    3 * Budget(s.loaded, s.maxRestart) + 2 * |s.timers| + |s.reports|
  }

  /** Steps taken by the restart goroutines themselves. */
  predicate GoroutineStep(step: Step) {
    step.FireStep? || step.InFlightStep? || step.AbandonStep?
  }

  function Spent(steps: seq<Step>): nat {
    if steps == [] then 0
    else Spent(steps[..|steps| - 1]) + (if GoroutineStep(steps[|steps| - 1]) then 1 else 0)
  }

  /** No new load and no failure report from outside. */
  predicate Quiet(steps: seq<Step>) {
    forall k :: 0 <= k < |steps| ==> !steps[k].LoadStep? && !steps[k].ReportStep?
  }

  lemma ReportWork(s: Sup, name: string, frac: real)
    ensures Work(ReportFailure(s, name, frac)) <= Work(s)
    ensures name in s.loaded && s.loaded[name].restartAttempt < s.maxRestart ==>
      Work(ReportFailure(s, name, frac)) < Work(s)
  {
    if name in s.loaded {
      var t := ReportFailure(s, name, frac);
      BudgetUpdate(s.loaded, s.maxRestart, name, t.loaded[name]);
      if s.loaded[name].restartAttempt + 1 < s.maxRestart {
        assert |s.timers + multiset{name}| == |s.timers| + 1;
      }
    }
  }

  lemma InFlightWork(s: Sup, name: string, frac: real)
    requires name in s.reports
    ensures Work(InFlightReport(s, name, frac)) < Work(s)
  {
    var s1 := s.(reports := s.reports - multiset{name});
    assert |s.reports - multiset{name}| == |s.reports| - 1;
    ReportWork(s1, name, frac);
  }

  lemma FireWork(s: Sup, name: string, initOk: bool, startOk: bool)
    requires name in s.timers
    ensures Work(Fire(s, name, initOk, startOk)) < Work(s)
  {
    var t := Fire(s, name, initOk, startOk);
    assert |s.timers - multiset{name}| == |s.timers| - 1;
    assert |s.reports + multiset{name}| == |s.reports| + 1;
    if name in s.loaded && initOk && startOk {
      BudgetUpdate(s.loaded, s.maxRestart, name, t.loaded[name]);
    }
  }

  lemma StopWork(s: Sup, name: string)
    ensures Work(StopLocked(s, name)) <= Work(s)
  {
    if name in s.loaded {
      BudgetPick(s.loaded, s.maxRestart, name);
    }
  }

  lemma {:induction false} StopEachWork(s: Sup, names: seq<string>)
    ensures Work(StopEach(s, names)) <= Work(s)
  {
    if names != [] {
      StopEachWork(s, names[..|names| - 1]);
      StopWork(StopEach(s, names[..|names| - 1]), names[|names| - 1]);
    }
  }

  lemma StepWork(s: Sup, step: Step)
    requires Enabled(s, step) && !step.LoadStep? && !step.ReportStep?
    ensures Work(Take(s, step)) + (if GoroutineStep(step) then 1 else 0) <= Work(s)
  {
    match step
    case UnloadStep(name, saveOk) =>
      StopWork(s, name);
      if name in s.loaded {
        var stopped := StopLocked(s, name);
        assert Unload(s, name, saveOk).loaded == stopped.loaded;
      }
    case LifeStopStep =>
    case StopAllStep => StopEachWork(s, Descending(s.loaded.Keys));
    case FireStep(name, initOk, startOk) => FireWork(s, name, initOk, startOk);
    case InFlightStep(name, frac) => InFlightWork(s, name, frac);
    case AbandonStep(name) => assert |s.timers - multiset{name}| == |s.timers| - 1;
  }

  /** Without new loads or outside reports, timer fires, failed-restart reports and abandonments are
      bounded by the work measured at the start, however the modules behave. */
  lemma {:induction false} RestartsTerminate(s: Sup, steps: seq<Step>)
    requires Possible(s, steps) && Quiet(steps)
    ensures Spent(steps) + Work(Run(s, steps)) <= Work(s)
  {
    if steps != [] {
      var front := steps[..|steps| - 1];
      RestartsTerminate(s, front);
      StepWork(Run(s, front), steps[|steps| - 1]);
    }
  }

  /** No goroutine can take a step exactly when none is outstanding. */
  lemma NothingOutstanding(t: Sup)
    requires forall step :: GoroutineStep(step) ==> !Enabled(t, step)
    ensures t.timers == multiset{} && t.reports == multiset{}
  {
    forall m
      ensures t.timers[m] == 0 && t.reports[m] == 0
    {
      assert GoroutineStep(FireStep(m, true, true)) && !Enabled(t, FireStep(m, true, true));
      assert GoroutineStep(InFlightStep(m, 0.0)) && !Enabled(t, InFlightStep(m, 0.0));
    }
  }

  /** When the goroutines have nothing left to do and shutdown has not begun, every loaded module is
      either running, with a live instance and announced as running, or parked as failed. */
  lemma {:induction false} SettledModules(s: Sup, steps: seq<Step>, n: string)
    requires Initial(s) && Possible(s, steps)
    requires !Run(s, steps).lifeDone && n in Run(s, steps).loaded
    requires forall step :: GoroutineStep(step) ==> !Enabled(Run(s, steps), step)
    ensures
      var t := Run(s, steps);
      && t.timers == multiset{} && t.reports == multiset{}
      && (t.loaded[n].state == Running || t.loaded[n].state == Failed)
      && (t.loaded[n].state == Running ==> Live(RecordedCalls(t.loaded, t.instances, n)))
      && (n in t.hosted ==> n in Replay(t.events) && Replay(t.events)[n] == t.loaded[n].state)
  {
    NothingOutstanding(Run(s, steps));
    ReachableRecords(s, steps, n);
  }

  // ---- Failed modules ----

  predicate Touches(step: Step, name: string) {
    step.StopAllStep? || (step.UnloadStep? && step.name == name)
  }

  predicate IsParked(s: Sup, name: string) {
    name in s.loaded && s.loaded[name].state == Failed && s.loaded[name].restartAttempt >= s.maxRestart
  }

  lemma ParkedReport(s: Sup, other: string, frac: real, name: string)
    requires IsParked(s, name) && s.timers[name] == 0
    ensures IsParked(ReportFailure(s, other, frac), name) && ReportFailure(s, other, frac).timers[name] == 0
  {
  }

  lemma ParkedFire(s: Sup, other: string, initOk: bool, startOk: bool, name: string)
    requires IsParked(s, name) && s.timers[name] == 0 && other != name
    ensures IsParked(Fire(s, other, initOk, startOk), name) && Fire(s, other, initOk, startOk).timers[name] == 0
  {
  }

  lemma ParkedStep(s: Sup, step: Step, name: string)
    requires IsParked(s, name) && s.timers[name] == 0
    requires Enabled(s, step) && !Touches(step, name)
    ensures IsParked(Take(s, step), name) && Take(s, step).timers[name] == 0
  {
    match step
    case LoadStep(other, o) =>
    case UnloadStep(other, saveOk) =>
    case LifeStopStep =>
    case ReportStep(other, frac) => ParkedReport(s, other, frac, name);
    case FireStep(other, initOk, startOk) => ParkedFire(s, other, initOk, startOk, name);
    case InFlightStep(other, frac) => ParkedReport(s.(reports := s.reports - multiset{other}), other, frac, name);
    case AbandonStep(other) =>
  }

  /** A failed module for which no restart timer is outstanding stays failed through any run that
      neither unloads it nor shuts down, even if failure reports are still to come. */
  lemma {:induction false} FailedStays(s: Sup, steps: seq<Step>, name: string)
    requires Inv(s) && name in s.loaded && s.loaded[name].state == Failed && s.timers[name] == 0
    requires Possible(s, steps)
    requires forall k :: 0 <= k < |steps| ==> !Touches(steps[k], name)
    ensures IsParked(Run(s, steps), name) && Run(s, steps).timers[name] == 0
  {
    if steps == [] {
      assert EntryInv(s.loaded[name], s.maxRestart, s.backoff);
    } else {
      FailedStays(s, steps[..|steps| - 1], name);
      ParkedStep(Run(s, steps[..|steps| - 1]), steps[|steps| - 1], name);
    }
  }

  /** The condition is exact: with a timer outstanding, some run takes the failed module back to
      Running, its restart count still at or beyond the limit. */
  lemma {:induction false} FailedRevivedByTimer(s: Sup, name: string) returns (steps: seq<Step>)
    requires Inv(s) && name in s.loaded && s.loaded[name].state == Failed && name in s.timers
    ensures Possible(s, steps) && (forall k :: 0 <= k < |steps| ==> !Touches(steps[k], name))
    ensures
      var t := Run(s, steps);
      name in t.loaded && t.loaded[name].state == Running && t.loaded[name].restartAttempt >= t.maxRestart
  {
    steps := [FireStep(name, true, true)];
    assert steps[..|steps| - 1] == [];
    assert Run(s, []) == s && Possible(s, []);
    assert EntryInv(s.loaded[name], s.maxRestart, s.backoff);
  }

  // ---- Failed modules with a timer are reached ----

  const GOOD_LOAD := LoadOutcome(true, true, true, true)

  lemma RunSnoc(s: Sup, steps: seq<Step>, step: Step)
    ensures Run(s, steps + [step]) == Take(Run(s, steps), step)
    ensures Possible(s, steps + [step]) <==> Possible(s, steps) && Enabled(Run(s, steps), step)
  {
    assert (steps + [step])[..|steps + [step]| - 1] == steps;
  }

  /** The module has failed `reports` times and never been restarted. */
  predicate Piled(t: Sup, name: string, limit: int, reports: nat) {
    && t.maxRestart == limit && name in t.loaded && t.loaded[name].restartAttempt == reports
    && t.loaded[name].state == (if reports == 0 then Running else Degraded)
    && t.timers[name] == reports && t.reports == multiset{} && !t.lifeDone
  }

  lemma PiledReport(t: Sup, name: string, limit: int, reports: nat)
    requires Piled(t, name, limit, reports) && reports + 1 < limit
    ensures Piled(ReportFailure(t, name, 0.0), name, limit, reports + 1)
  {
  }

  lemma LoadFirst(s: Sup, name: string)
    requires Initial(s) && name in s.registry
    ensures Piled(Load(s, name, GOOD_LOAD), name, s.maxRestart, 0)
  {
  }

  /** A load that succeeds, then the given number of failure reports from outside. */
  lemma {:induction false} ReportsPileUp(s: Sup, name: string, reports: nat) returns (steps: seq<Step>)
    requires Initial(s) && name in s.registry && reports < s.maxRestart
    ensures Possible(s, steps) && Piled(Run(s, steps), name, s.maxRestart, reports)
  {
    if reports == 0 {
      RunSnoc(s, [], LoadStep(name, GOOD_LOAD));
      LoadFirst(s, name);
      steps := [] + [LoadStep(name, GOOD_LOAD)];
    } else {
      var front := ReportsPileUp(s, name, reports - 1);
      RunSnoc(s, front, ReportStep(name, 0.0));
      PiledReport(Run(s, front), name, s.maxRestart, reports - 1);
      steps := front + [ReportStep(name, 0.0)];
    }
  }

  lemma PiledLimit(t: Sup, name: string, limit: int, reports: nat)
    requires Piled(t, name, limit, reports) && 1 <= reports && reports + 1 == limit
    ensures
      var u := ReportFailure(t, name, 0.0);
      name in u.loaded && u.loaded[name].state == Failed && name in u.timers
  {
  }

  /** From the start, any registered module can be driven into Failed with a timer outstanding once a limit
      of at least two leaves room for a restart. */
  lemma FailedWithTimerReached(s: Sup, name: string) returns (steps: seq<Step>)
    requires Initial(s) && name in s.registry && s.maxRestart >= 2
    ensures FailedWithTimer(s, steps, name)
  {
    var front := ReportsPileUp(s, name, s.maxRestart - 1);
    RunSnoc(s, front, ReportStep(name, 0.0));
    PiledLimit(Run(s, front), name, s.maxRestart, s.maxRestart - 1);
    steps := front + [ReportStep(name, 0.0)];
  }

  /** Below that no timer is ever set, so the limit is exact. */
  lemma {:induction false} NoTimersBelowTwo(s: Sup, steps: seq<Step>)
    requires Initial(s) && s.maxRestart < 2 && Possible(s, steps)
    ensures Run(s, steps).timers == multiset{}
  {
    if steps != [] {
      var front, last := steps[..|steps| - 1], steps[|steps| - 1];
      NoTimersBelowTwo(s, front);
      RunKeepsConfig(s, front);
      NoTimerStep(Run(s, front), last);
    }
  }

  lemma NoTimerStep(s: Sup, step: Step)
    requires s.maxRestart < 2 && s.timers == multiset{} && Enabled(s, step)
    ensures Take(s, step).timers == multiset{}
  {
    if step.StopAllStep? {
      StopEachFrame(s, Descending(s.loaded.Keys));
    }
  }

  /** A failed module with a timer outstanding can be reached exactly when the limit is at least two. */
  lemma FailedWithTimerReachedIff(s: Sup, name: string)
    requires Initial(s) && name in s.registry
    ensures (exists steps :: FailedWithTimer(s, steps, name)) <==> s.maxRestart >= 2
  {
    if s.maxRestart >= 2 {
      var steps := FailedWithTimerReached(s, name);
    } else {
      forall steps | FailedWithTimer(s, steps, name)
        ensures false
      {
        NoTimersBelowTwo(s, steps);
      }
    }
  }

  ghost predicate FailedWithTimer(s: Sup, steps: seq<Step>, name: string) {
    && Possible(s, steps)
    && name in Run(s, steps).loaded && Run(s, steps).loaded[name].state == Failed && name in Run(s, steps).timers
  }

  /** Timers find modules by name: firing one on a loaded module replaces its instance, healthy or not. */
  lemma FireReplaces(s: Sup, name: string)
    requires Inv(s) && name in s.loaded && name in s.timers
    ensures
      var t := Fire(s, name, true, true);
      && name in t.loaded && t.loaded[name].instance != s.loaded[name].instance
      && t.loaded[name].restartAttempt == s.loaded[name].restartAttempt
      && s.loaded[name].instance < |t.instances| && !Live(t.instances[s.loaded[name].instance].calls)
  {
  }

  /** A timer scheduled in one load survives an unload: after a reload it is still there, although the new
      instance is healthy and has never failed, and firing it replaces that instance. */
  lemma {:induction false} TimerActsOnLaterLoad(s: Sup, name: string, frac: real, o: LoadOutcome)
    requires Inv(s) && name in s.loaded && s.loaded[name].restartAttempt + 1 < s.maxRestart && JitterDraw(frac)
    requires o.licensed && o.initOk && o.startOk
    ensures
      var reloaded := Load(Unload(ReportFailure(s, name, frac), name, true), name, o);
      && Inv(reloaded) && name in reloaded.loaded && name in reloaded.timers
      && reloaded.loaded[name].state == Running && reloaded.loaded[name].restartAttempt == 0
      && var t := Fire(reloaded, name, true, true);
         name in t.loaded && t.loaded[name].instance != reloaded.loaded[name].instance
  {
    var reported := ReportFailure(s, name, frac);
    ReportKeepsInv(s, name, frac);
    UnloadKeepsInv(reported, name, true);
    ReloadKeepsTimer(reported, name, o);
    FireReplaces(Load(Unload(reported, name, true), name, o), name);
  }

  lemma {:induction false} ReloadKeepsTimer(s: Sup, name: string, o: LoadOutcome)
    requires Inv(s) && name in s.loaded && name in s.timers
    requires o.licensed && o.initOk && o.startOk
    ensures
      var reloaded := Load(Unload(s, name, true), name, o);
      && Inv(reloaded) && name in reloaded.loaded && name in reloaded.timers
      && reloaded.loaded[name].state == Running && reloaded.loaded[name].restartAttempt == 0
  {
    assert name in s.registry;
    UnloadKeepsInv(s, name, true);
    LoadKeepsInv(Unload(s, name, true), name, o);
  }

  // ---- Stranding after shutdown has begun ----

  predicate Stranded(s: Sup, name: string) {
    name in s.loaded && s.loaded[name].state == Degraded && name !in s.timers && name !in s.reports
  }

  predicate OnlyAbandons(steps: seq<Step>) {
    forall k :: 0 <= k < |steps| ==> steps[k].AbandonStep?
  }

  /** A run of abandonments that strands the module. */
  ghost predicate StrandingRun(s: Sup, steps: seq<Step>, name: string) {
    OnlyAbandons(steps) && Possible(s, steps) && Stranded(Run(s, steps), name)
  }

  /** `t` is `s` after `count` of the module's timers were given up. */
  predicate Lightened(s: Sup, t: Sup, name: string, count: nat) {
    t.loaded == s.loaded && t.reports == s.reports && t.lifeDone && t.timers[name] + count == s.timers[name]
  }

  lemma LightenedAbandon(s: Sup, t: Sup, name: string, count: nat)
    requires Lightened(s, t, name, count) && count < s.timers[name]
    ensures Enabled(t, AbandonStep(name)) && Lightened(s, Abandon(t, name), name, count + 1)
  {
  }

  lemma {:induction false} AbandonMany(s: Sup, name: string, count: nat) returns (steps: seq<Step>)
    requires s.lifeDone && count <= s.timers[name]
    ensures OnlyAbandons(steps) && Possible(s, steps) && Lightened(s, Run(s, steps), name, count)
  {
    steps := [];
    if count > 0 {
      var front := AbandonMany(s, name, count - 1);
      RunSnoc(s, front, AbandonStep(name));
      LightenedAbandon(s, Run(s, front), name, count - 1);
      steps := front + [AbandonStep(name)];
    }
  }

  lemma {:induction false} AbandonsKeep(s: Sup, steps: seq<Step>)
    requires OnlyAbandons(steps) && Possible(s, steps)
    ensures Run(s, steps).reports == s.reports && Run(s, steps).lifeDone == s.lifeDone
    ensures !s.lifeDone ==> steps == []
  {
    if steps != [] {
      AbandonsKeep(s, steps[..|steps| - 1]);
    }
  }

  /** Abandoned restarts strand a degraded module exactly when shutdown has begun and no failure report is
      still to come for it. */
  lemma StrandedIff(s: Sup, name: string)
    requires Inv(s) && name in s.loaded && s.loaded[name].state == Degraded
    ensures (exists steps :: StrandingRun(s, steps, name)) <==> s.lifeDone && name !in s.reports
  {
    if s.lifeDone && name !in s.reports {
      var steps := AbandonMany(s, name, s.timers[name]);
      assert StrandingRun(s, steps, name);
    }
    forall steps | StrandingRun(s, steps, name)
      ensures s.lifeDone && name !in s.reports
    {
      AbandonsKeep(s, steps);
    }
  }

  /** It happens from the start: load, report a failure, begin shutdown, abandon. */
  lemma AbandonStrands(s: Sup, name: string) returns (steps: seq<Step>)
    requires Initial(s) && name in s.registry && s.maxRestart >= 2
    ensures Possible(s, steps) && Stranded(Run(s, steps), name)
  {
    var first := ReportsPileUp(s, name, 1);
    RunSnoc(s, first, LifeStopStep);
    RunSnoc(s, first + [LifeStopStep], AbandonStep(name));
    steps := first + [LifeStopStep] + [AbandonStep(name)];
  }
}
