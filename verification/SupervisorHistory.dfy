/** What the state of the supervisor owes to its history: which steps load, enable and count, told from the
    steps alone. */
module SupervisorHistory {
  import opened Backoff
  import opened EnabledList
  import opened NameOrder
  import opened SupervisorModel
  import opened SupervisorInvariants
  import opened SupervisorRuns
  import opened SupervisorLifecycle

  // ---- Loads that fail ----

  /** Loading a loaded or an unknown name changes nothing. A load that fails at any stage loads and enables
      nothing and saves nothing, and without a licence nothing is called or announced either. */
  lemma FailedLoad(s: Sup, name: string, o: LoadOutcome)
    ensures name in s.loaded || name !in s.registry ==> Load(s, name, o) == s
    ensures
      var t := Load(s, name, o);
      && (!Succeeds(o) ==>
            && t.loaded == s.loaded && t.enabled == s.enabled && t.disk == s.disk && t.loads == s.loads
            && t.timers == s.timers && t.reports == s.reports)
      && (!o.licensed ==>
            && t.events == s.events && t.contexts == s.contexts
            && (t.instances == s.instances || t.instances == s.instances + [Instance(name, [])]))
  {
    assert s.contexts + [] == s.contexts && s.events + [] == s.events;
  }

  // ---- What is loaded ----

  /** A step that brings a module up, unless it is up already. */
  predicate Brings(s: Sup, step: Step, n: string) {
    step.LoadStep? && step.name == n && n in s.registry && Succeeds(step.outcome)
  }

  predicate TakesDown(step: Step, n: string) {
    step.StopAllStep? || (step.UnloadStep? && step.name == n)
  }

  /** Up since the last successful load, unless unloaded or shut down after it. */
  predicate Up(s: Sup, steps: seq<Step>, n: string) {
    if steps == [] then n in s.loaded
    else
      var last := steps[|steps| - 1];
      Brings(s, last, n) || (!TakesDown(last, n) && Up(s, steps[..|steps| - 1], n))
  }

  lemma {:induction false} StepLoads(s: Sup, step: Step, n: string)
    ensures n in Take(s, step).loaded <==> Brings(s, step, n) || (!TakesDown(step, n) && n in s.loaded)
  {
    match step
    case LoadStep(name, o) => FailedLoad(s, name, o);
    case StopAllStep => StopEachFrame(s, Descending(s.loaded.Keys));
    case FireStep(name, initOk, startOk) => FireLoads(s, name, initOk, startOk);
    case _ =>
  }

  lemma FireLoads(s: Sup, name: string, initOk: bool, startOk: bool)
    ensures Fire(s, name, initOk, startOk).loaded.Keys == s.loaded.Keys
  {
  }

  /** Whatever timers and failure reports do in between, exactly the modules successfully loaded and neither
      unloaded nor shut down since are loaded. */
  lemma {:induction false} LoadedIff(s: Sup, steps: seq<Step>, n: string)
    ensures n in Run(s, steps).loaded <==> Up(s, steps, n)
  {
    if steps != [] {
      var front := steps[..|steps| - 1];
      LoadedIff(s, front, n);
      RunKeepsConfig(s, front);
      StepLoads(Run(s, front), steps[|steps| - 1], n);
    }
  }

  // ---- What is enabled ----

  /** Steps that change the enabled list, and save it if the save succeeds. */
  predicate Enables(s: Sup, before: seq<Step>, step: Step, n: string) {
    Brings(s, step, n) && !Up(s, before, n)
  }

  predicate Disables(s: Sup, before: seq<Step>, step: Step, n: string) {
    step.UnloadStep? && step.name == n && Up(s, before, n)
  }

  /** Enabled by a load that succeeded, or from the start, and not disabled by an unload since. */
  predicate Remembered(s: Sup, steps: seq<Step>, n: string) {
    if steps == [] then n in s.enabled
    else
      var front, last := steps[..|steps| - 1], steps[|steps| - 1];
      Enables(s, front, last, n) || (!Disables(s, front, last, n) && Remembered(s, front, n))
  }

  lemma {:induction false} StepEnables(s: Sup, step: Step, n: string)
    ensures n in Take(s, step).enabled <==>
      (Brings(s, step, n) && n !in s.loaded) || (!(step.UnloadStep? && step.name == n && n in s.loaded) && n in s.enabled)
  {
    match step
    case LoadStep(name, o) => FailedLoad(s, name, o);
    case UnloadStep(name, saveOk) => WithoutMembers(s.enabled, name);
    case StopAllStep => StopEachFrame(s, Descending(s.loaded.Keys));
    case FireStep(name, initOk, startOk) =>
    case _ =>
  }

  /** The list in memory holds exactly the names that were enabled and not disabled since, whether or not the
      saves succeeded. */
  lemma {:induction false} EnabledIff(s: Sup, steps: seq<Step>, n: string)
    ensures n in Run(s, steps).enabled <==> Remembered(s, steps, n)
  {
    if steps != [] {
      var front := steps[..|steps| - 1];
      EnabledIff(s, front, n);
      LoadedIff(s, front, n);
      RunKeepsConfig(s, front);
      StepEnables(Run(s, front), steps[|steps| - 1], n);
    }
  }

  predicate OnDisk(disk: Disk, n: string) {
    disk.Holds? && n in disk.list
  }

  /** The step saves the list. */
  predicate Saves(s: Sup, before: seq<Step>, step: Step) {
    || (step.LoadStep? && Enables(s, before, step, step.name) && step.outcome.saveOk)
    || (step.UnloadStep? && Disables(s, before, step, step.name) && step.saveOk)
  }

  /** What the list held at the last successful save. */
  predicate Stored(s: Sup, steps: seq<Step>, n: string) {
    if steps == [] then OnDisk(s.disk, n)
    else
      var front := steps[..|steps| - 1];
      if Saves(s, front, steps[|steps| - 1]) then Remembered(s, steps, n) else Stored(s, front, n)
  }

  predicate SavesNow(s: Sup, step: Step) {
    || (step.LoadStep? && Brings(s, step, step.name) && step.name !in s.loaded && step.outcome.saveOk)
    || (step.UnloadStep? && step.name in s.loaded && step.saveOk)
  }

  lemma {:induction false} StepSaves(s: Sup, step: Step)
    ensures Take(s, step).disk == if SavesNow(s, step) then Holds(Take(s, step).enabled) else s.disk
  {
    match step
    case LoadStep(name, o) => FailedLoad(s, name, o);
    case StopAllStep => StopEachFrame(s, Descending(s.loaded.Keys));
    case _ =>
  }

  /** The file holds exactly what the list held at the last successful save. */
  lemma {:induction false} StoredIff(s: Sup, steps: seq<Step>, n: string)
    ensures OnDisk(Run(s, steps).disk, n) <==> Stored(s, steps, n)
  {
    if steps != [] {
      var front, last := steps[..|steps| - 1], steps[|steps| - 1];
      StoredIff(s, front, n);
      EnabledIff(s, steps, n);
      RunKeepsConfig(s, front);
      if last.LoadStep? || last.UnloadStep? {
        LoadedIff(s, front, last.name);
      }
      StepSaves(Run(s, front), last);
    }
  }

  /** A name that no successful load ever added is never enabled, in memory or on disk. */
  lemma {:induction false} NeverEnabled(s: Sup, steps: seq<Step>, n: string)
    requires n !in s.enabled && !OnDisk(s.disk, n)
    requires forall k :: 0 <= k < |steps| ==> !Brings(s, steps[k], n)
    ensures n !in Run(s, steps).enabled && !OnDisk(Run(s, steps).disk, n)
  {
    if steps != [] {
      NeverEnabled(s, steps[..|steps| - 1], n);
      EnabledIff(s, steps, n);
      EnabledIff(s, steps[..|steps| - 1], n);
      StoredIff(s, steps, n);
      StoredIff(s, steps[..|steps| - 1], n);
    }
  }

  // ---- What is counted ----

  predicate Reports(step: Step, n: string) {
    (step.ReportStep? || step.InFlightStep?) && step.name == n
  }

  /** How many failures were reported for a module since it was last loaded. */
  function Failures(s: Sup, steps: seq<Step>, n: string): nat {
    if steps == [] || !Up(s, steps[..|steps| - 1], n) then 0
    else Failures(s, steps[..|steps| - 1], n) + (if Reports(steps[|steps| - 1], n) then 1 else 0)
  }

  lemma {:induction false} StepCounts(s: Sup, step: Step, n: string)
    requires n in Take(s, step).loaded
    ensures Take(s, step).loaded[n].restartAttempt
         == if n in s.loaded then s.loaded[n].restartAttempt + (if Reports(step, n) then 1 else 0) else 0
  {
    match step
    case LoadStep(name, o) => LoadCounts(s, name, o, n);
    case StopAllStep => StopEachFrame(s, Descending(s.loaded.Keys));
    case ReportStep(name, frac) => ReportCounts(s, name, frac, n);
    case FireStep(name, initOk, startOk) => FireCounts(s, name, initOk, startOk, n);
    case InFlightStep(name, frac) => ReportCounts(s.(reports := s.reports - multiset{name}), name, frac, n);
    case _ =>
  }

  lemma LoadCounts(s: Sup, name: string, o: LoadOutcome, n: string)
    requires n in Load(s, name, o).loaded
    ensures Load(s, name, o).loaded[n].restartAttempt == if n in s.loaded then s.loaded[n].restartAttempt else 0
  {
    FailedLoad(s, name, o);
  }

  lemma ReportCounts(s: Sup, name: string, frac: real, n: string)
    requires n in ReportFailure(s, name, frac).loaded
    ensures n in s.loaded
    ensures ReportFailure(s, name, frac).loaded[n].restartAttempt
         == s.loaded[n].restartAttempt + (if name == n then 1 else 0)
  {
  }

  lemma FireCounts(s: Sup, name: string, initOk: bool, startOk: bool, n: string)
    requires n in Fire(s, name, initOk, startOk).loaded
    ensures n in s.loaded && Fire(s, name, initOk, startOk).loaded[n].restartAttempt == s.loaded[n].restartAttempt
  {
  }

  /** The restart count is exactly the number of failures reported since the load, restarts in between or
      not, and beyond the limit too. */
  lemma {:induction false} EveryReportCounts(s: Sup, steps: seq<Step>, n: string)
    requires Initial(s) && n in Run(s, steps).loaded
    ensures Run(s, steps).loaded[n].restartAttempt == Failures(s, steps, n)
  {
    if steps != [] {
      var front := steps[..|steps| - 1];
      LoadedIff(s, front, n);
      StepCounts(Run(s, front), steps[|steps| - 1], n);
      if n in Run(s, front).loaded {
        EveryReportCounts(s, front, n);
      }
    }
  }

  lemma ReportState(s: Sup, name: string, frac: real)
    requires name in s.loaded
    ensures
      var e := ReportFailure(s, name, frac).loaded[name];
      e.state == if e.restartAttempt >= s.maxRestart then Failed else Degraded
  {
  }

  /** A report parks the module exactly when it brings the count since the load to the configured limit, five
      if none was configured, or beyond; otherwise the module is degraded. */
  lemma {:induction false} ReportVerdict(registry: set<string>, hosted: set<string>, limit: int, backoff: BackoffConfig,
                                         disk: Disk, steps: seq<Step>, n: string)
    requires steps != [] && Reports(steps[|steps| - 1], n)
    requires n in Run(New(registry, hosted, limit, backoff, disk), steps).loaded
    ensures
      var s := New(registry, hosted, limit, backoff, disk);
      Run(s, steps).loaded[n].state == if Failures(s, steps, n) >= (if limit == 0 then 5 else limit) then Failed else Degraded
  {
    var s, front, last := New(registry, hosted, limit, backoff, disk), steps[..|steps| - 1], steps[|steps| - 1];
    EveryReportCounts(s, steps, n);
    RunKeepsConfig(s, front);
    StepLoads(Run(s, front), last, n);
    if last.ReportStep? {
      ReportState(Run(s, front), n, last.frac);
    } else {
      ReportState(Run(s, front).(reports := Run(s, front).reports - multiset{n}), n, last.frac);
    }
  }

  predicate Schedules(s: Sup, name: string, frac: real, delay: real)
    requires name in s.loaded
  {
    ReportFailure(s, name, frac).loaded[name].delays == s.loaded[name].delays + [delay]
  }

  /** With jitter, the restart that a report schedules can come after any delay within five per cent of the
      capped delay for that attempt, and after no other. */
  lemma {:induction false} EveryDelayPossible(s: Sup, name: string, delay: real)
    requires name in s.loaded && s.loaded[name].restartAttempt + 1 < s.maxRestart
    requires s.backoff.jitter && CappedDelay(s.backoff, s.loaded[name].restartAttempt) > 0.0
    ensures
      var dur := CappedDelay(s.backoff, s.loaded[name].restartAttempt);
      (exists frac :: JitterDraw(frac) && Schedules(s, name, frac, delay)) <==> 0.95 * dur <= delay < 1.05 * dur
  {
    var dur := CappedDelay(s.backoff, s.loaded[name].restartAttempt);
    JitterCoversBand(dur, delay);
    forall frac
      ensures Schedules(s, name, frac, delay) <==> Jittered(true, dur, frac) == delay
    {
      ScheduledDelay(s, name, frac, delay);
    }
  }

  lemma ScheduledDelay(s: Sup, name: string, frac: real, delay: real)
    requires name in s.loaded && s.loaded[name].restartAttempt + 1 < s.maxRestart && s.backoff.jitter
    ensures Schedules(s, name, frac, delay)
       <==> Jittered(true, CappedDelay(s.backoff, s.loaded[name].restartAttempt), frac) == delay
  {
    var e := s.loaded[name];
    var d := BackoffFor(s.backoff, e.restartAttempt, frac);
    assert ReportFailure(s, name, frac).loaded[name].delays == e.delays + [d];
    assert (e.delays + [d])[|e.delays|] == d && (e.delays + [delay])[|e.delays|] == delay;
  }

  // ---- Restarts that fail ----

  lemma StoppedIsDead(calls: seq<Call>)
    ensures !Live(calls + [Stop])
  {
    assert (calls + [Stop])[|calls|] == Stop;
  }

  /** A restart that fails stops the recorded instance and leaves the record as it was, even one that says
      Running; a report is then outstanding. */
  lemma {:induction false} FailedRestart(s: Sup, name: string, initOk: bool, startOk: bool)
    requires RecordInv(s.loaded, s.instances) && name in s.loaded && name in s.timers && !(initOk && startOk)
    ensures
      var t := Fire(s, name, initOk, startOk);
      && t.loaded == s.loaded && t.reports == s.reports + multiset{name} && t.timers == s.timers - multiset{name}
      && !Live(RecordedCalls(t.loaded, t.instances, name))
  {
    var i := s.loaded[name].instance;
    StoppedIsDead(s.instances[i].calls);
    assert AfterStop(s.instances, i)[i].calls == s.instances[i].calls + [Stop];
  }

  /** One that succeeds records the new instance, which is live, as running; no report follows. */
  lemma {:induction false} GoodRestart(s: Sup, name: string)
    requires name in s.loaded && name in s.timers
    ensures
      var t := Fire(s, name, true, true);
      && t.loaded.Keys == s.loaded.Keys && t.loaded[name].state == Running
      && t.loaded[name].restartAttempt == s.loaded[name].restartAttempt
      && t.reports == s.reports && t.timers == s.timers - multiset{name}
      && Live(RecordedCalls(t.loaded, t.instances, name))
  {
    FreshCalls(true, true);
  }

  /** Recorded as running although nothing of it is live. */
  ghost predicate DeadButRunning(s: Sup, steps: seq<Step>, n: string) {
    && Possible(s, steps) && n in Run(s, steps).loaded && Run(s, steps).loaded[n].state == Running
    && !Live(RecordedCalls(Run(s, steps).loaded, Run(s, steps).instances, n))
  }

  /** Loaded anew, with a timer left from the time before. */
  predicate Overtaken(t: Sup, name: string) {
    && name in t.loaded && t.loaded[name].state == Running && name in t.timers
    && RecordInv(t.loaded, t.instances)
  }

  lemma ReloadOvertakes(t: Sup, name: string)
    requires Inv(t) && name in t.loaded && name in t.timers
    ensures Overtaken(Load(Unload(t, name, true), name, GOOD_LOAD), name)
  {
    ReloadKeepsTimer(t, name, GOOD_LOAD);
  }

  lemma {:induction false} OvertakenReached(s: Sup, name: string) returns (steps: seq<Step>)
    requires Initial(s) && name in s.registry && s.maxRestart >= 2
    ensures Possible(s, steps) && Overtaken(Run(s, steps), name)
  {
    var first := ReportsPileUp(s, name, 1);
    RunKeepsInv(s, first);
    assert name in Run(s, first).timers;
    ReloadOvertakes(Run(s, first), name);
    var unload, load := UnloadStep(name, true), LoadStep(name, GOOD_LOAD);
    RunSnoc(s, first, unload);
    RunSnoc(s, first + [unload], load);
    steps := first + [unload] + [load];
  }

  lemma OvertakenFails(t: Sup, name: string)
    requires Overtaken(t, name)
    ensures
      var u := Take(t, FireStep(name, false, false));
      && Enabled(t, FireStep(name, false, false)) && name in u.loaded && u.loaded[name].state == Running
      && !Live(RecordedCalls(u.loaded, u.instances, name))
  {
    FailedRestart(t, name, false, false);
  }

  /** From the start: load, report, unload, load again; the old timer fires and its restart fails. */
  lemma {:induction false} DeadButRunningReached(s: Sup, name: string) returns (steps: seq<Step>)
    requires Initial(s) && name in s.registry && s.maxRestart >= 2
    ensures DeadButRunning(s, steps, name)
  {
    var front := OvertakenReached(s, name);
    OvertakenFails(Run(s, front), name);
    RunSnoc(s, front, FireStep(name, false, false));
    steps := front + [FireStep(name, false, false)];
  }

  lemma {:induction false} NoReportsBelowTwo(s: Sup, steps: seq<Step>)
    requires Initial(s) && s.maxRestart < 2 && Possible(s, steps)
    ensures Run(s, steps).reports == multiset{}
  {
    if steps != [] {
      var front, last := steps[..|steps| - 1], steps[|steps| - 1];
      NoReportsBelowTwo(s, front);
      NoTimersBelowTwo(s, front);
      NoReportStep(Run(s, front), last);
    }
  }

  lemma NoReportStep(s: Sup, step: Step)
    requires s.timers == multiset{} && s.reports == multiset{} && Enabled(s, step)
    ensures Take(s, step).reports == multiset{}
  {
    if step.StopAllStep? {
      StopEachFrame(s, Descending(s.loaded.Keys));
    }
  }

  /** The record can say running of a module that is not, exactly when the limit leaves room for a restart. */
  lemma {:induction false} DeadButRunningIff(s: Sup, name: string)
    requires Initial(s) && name in s.registry
    ensures (exists steps :: DeadButRunning(s, steps, name)) <==> s.maxRestart >= 2
  {
    if s.maxRestart >= 2 {
      var steps := DeadButRunningReached(s, name);
    } else {
      forall steps | Possible(s, steps)
        ensures !DeadButRunning(s, steps, name)
      {
        NoReportsBelowTwo(s, steps);
        if name in Run(s, steps).loaded {
          ReachableRecords(s, steps, name);
        }
      }
    }
  }
}
