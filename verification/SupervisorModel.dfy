/** The supervisor as a state machine. Each section the source runs under its lock is one step;
    between steps there are restart goroutines, either waiting on a timer or about to report a
    failed restart. Outcomes of module calls and of saving are chosen by the environment. */
module SupervisorModel {
  import opened Backoff
  import opened EnabledList
  import opened NameOrder

  datatype ModuleState = Disabled | Initializing | Running | Degraded | Stopping | Stopped | Failed

  /** A call the supervisor makes on a module instance, with its outcome. */
  datatype Call = Init(ok: bool) | Start(ok: bool) | Stop

  /** A module instance a factory produced, with every call made on it so far. */
  datatype Instance = Instance(name: string, calls: seq<Call>)

  /** A cancellable context created for a module's background work. */
  datatype Context = Context(owner: string, cancelled: bool)

  datatype Event = StateChanged(name: string, state: ModuleState) | ErrorRaised(name: string)

  /** What is recorded for a loaded module. `delays` (the restart delays scheduled since this load)
      and `loadNo` (the position of this load among all loads) are history. */
  datatype Entry = Entry(instance: nat, state: ModuleState, restartAttempt: nat, ctx: nat,
                         delays: seq<real>, loadNo: nat)

  /** The enabled-set file. */
  datatype Disk = Missing | Unreadable | Holds(list: seq<string>)

  datatype LoadOutcome = LoadOutcome(licensed: bool, initOk: bool, startOk: bool, saveOk: bool)

  datatype Sup = Sup(
    registry: set<string>, hosted: set<string>, maxRestart: int, backoff: BackoffConfig,
    loaded: map<string, Entry>, enabled: seq<string>, disk: Disk, lifeDone: bool, loads: nat,
    instances: seq<Instance>, contexts: seq<Context>, events: seq<Event>,
    timers: multiset<string>, reports: multiset<string>)

  /** A supervisor just constructed; a configured limit of zero means the default of five. */
  function New(registry: set<string>, hosted: set<string>, maxRestarts: int, backoff: BackoffConfig, disk: Disk): Sup {
    Sup(registry, hosted, if maxRestarts == 0 then 5 else maxRestarts, backoff,
        map[], [], disk, false, 0, [], [], [], multiset{}, multiset{})
  }

  // ---- Effects ----

  /** Events of a module without a host go nowhere. */
  function Published(hosted: set<string>, events: seq<Event>, name: string, more: seq<Event>): seq<Event> {
    if name in hosted then events + more else events
  }

  function AfterStop(instances: seq<Instance>, i: nat): seq<Instance> {
    if i < |instances| then instances[i := instances[i].(calls := instances[i].calls + [Stop])] else instances
  }

  function AfterCancel(contexts: seq<Context>, c: nat): seq<Context> {
    if c < |contexts| then contexts[c := contexts[c].(cancelled := true)] else contexts
  }

  /** The calls a new instance gets: Start only after a successful Init. */
  function CallsMade(initOk: bool, startOk: bool): seq<Call> {
    if initOk then [Init(true), Start(startOk)] else [Init(false)]
  }

  function Persisted(disk: Disk, enabled: seq<string>, ok: bool): Disk {
    if ok then Holds(enabled) else disk
  }

  // ---- Steps ----

  /** What loading announces; Running is announced before Start is tried. */
  function LoadEvents(name: string, o: LoadOutcome): seq<Event> {
    if !o.licensed then []
    else if !o.initOk then [StateChanged(name, Initializing), ErrorRaised(name)]
    else if !o.startOk then
      [StateChanged(name, Initializing), StateChanged(name, Running), ErrorRaised(name), StateChanged(name, Failed)]
    else [StateChanged(name, Initializing), StateChanged(name, Running)]
  }

  function Load(s: Sup, name: string, o: LoadOutcome): Sup {
    if name in s.loaded || name !in s.registry then s
    else
      var calls := if o.licensed then CallsMade(o.initOk, o.startOk) else [];
      var contexts := if o.licensed && o.initOk then [Context(name, !o.startOk)] else [];
      var tried := s.(instances := s.instances + [Instance(name, calls)],
                      contexts := s.contexts + contexts,
                      events := Published(s.hosted, s.events, name, LoadEvents(name, o)));
      if !(o.licensed && o.initOk && o.startOk) then tried
      else
        var enabled := Add(s.enabled, name);
        tried.(loaded := s.loaded[name := Entry(|s.instances|, Running, 0, |s.contexts|, [], s.loads)],
               loads := s.loads + 1,
               enabled := enabled,
               disk := Persisted(s.disk, enabled, o.saveOk))
  }

  /** Stop one module and drop its record, leaving the enabled list alone. */
  function StopLocked(s: Sup, name: string): Sup {
    if name !in s.loaded then s
    else
      s.(instances := AfterStop(s.instances, s.loaded[name].instance),
         contexts := AfterCancel(s.contexts, s.loaded[name].ctx),
         events := Published(s.hosted, s.events, name, [StateChanged(name, Stopping), StateChanged(name, Stopped)]),
         loaded := s.loaded - {name})
  }

  function Unload(s: Sup, name: string, saveOk: bool): Sup {
    if name !in s.loaded then s
    else
      var enabled := Without(s.enabled, name);
      StopLocked(s, name).(enabled := enabled, disk := Persisted(s.disk, enabled, saveOk))
  }

  /** The first half of shutting down: cancel the lifetime context, outside the lock. */
  function LifeStop(s: Sup): Sup {
    s.(lifeDone := true)
  }

  function StopEach(s: Sup, names: seq<string>): Sup {
    if names == [] then s
    else StopLocked(StopEach(s, names[..|names| - 1]), names[|names| - 1])
  }

  /** The second half: stop every loaded module, largest name first. */
  ghost function StopAll(s: Sup): Sup {
    StopEach(s, Descending(s.loaded.Keys))
  }

  /** Record a module's new state and announce it. */
  function Announce(s: Sup, name: string, e: Entry, events: seq<Event>): Sup {
    s.(loaded := s.loaded[name := e], events := Published(s.hosted, s.events, name, events))
  }

  function Parked(e: Entry): Entry {
    e.(state := Failed, restartAttempt := e.restartAttempt + 1)
  }

  function Waiting(e: Entry, delay: real): Entry {
    e.(state := Degraded, restartAttempt := e.restartAttempt + 1, delays := e.delays + [delay])
  }

  /** Count the failure; at the limit park the module, otherwise schedule a restart. */
  function ReportFailure(s: Sup, name: string, frac: real): Sup {
    if name !in s.loaded then s
    else
      var e := s.loaded[name];
      if e.restartAttempt + 1 >= s.maxRestart then
        Announce(s, name, Parked(e), [StateChanged(name, Failed), ErrorRaised(name)])
      else
        var delay := BackoffFor(s.backoff, e.restartAttempt, frac);
        Announce(s, name, Waiting(e, delay), [StateChanged(name, Degraded)]).(timers := s.timers + multiset{name})
  }

  function RestartEvents(name: string, initOk: bool, startOk: bool): seq<Event> {
    if !initOk then [StateChanged(name, Initializing), ErrorRaised(name)]
    else if !startOk then [StateChanged(name, Initializing), StateChanged(name, Running), ErrorRaised(name)]
    else [StateChanged(name, Initializing), StateChanged(name, Running)]
  }

  /** Replace the instance of a loaded module; a failed attempt leaves a report to be made. */
  function Restart(s: Sup, name: string, initOk: bool, startOk: bool): Sup
    requires name in s.loaded
  {
    var e := s.loaded[name];
    var ok := initOk && startOk;
    var tried := s.(instances := AfterStop(s.instances, e.instance) + [Instance(name, CallsMade(initOk, startOk))],
                    contexts := AfterCancel(s.contexts, e.ctx) + [Context(name, !ok)],
                    events := Published(s.hosted, s.events, name, RestartEvents(name, initOk, startOk)));
    if ok then
      tried.(loaded := s.loaded[name := e.(instance := |s.instances|, state := Running, ctx := |s.contexts|)])
    else
      tried.(reports := s.reports + multiset{name})
  }

  /** A restart timer fires; it finds the module by name only. */
  function Fire(s: Sup, name: string, initOk: bool, startOk: bool): Sup {
    var s1 := s.(timers := s.timers - multiset{name});
    if name in s1.loaded then Restart(s1, name, initOk, startOk) else s1
  }

  /** The report that follows a failed restart. */
  function InFlightReport(s: Sup, name: string, frac: real): Sup {
    ReportFailure(s.(reports := s.reports - multiset{name}), name, frac)
  }

  /** A waiting restart is given up once the lifetime context is cancelled. */
  function Abandon(s: Sup, name: string): Sup {
    s.(timers := s.timers - multiset{name})
  }

  // ---- Runs ----

  datatype Step =
    | LoadStep(name: string, outcome: LoadOutcome)
    | UnloadStep(name: string, saveOk: bool)
    | LifeStopStep
    | StopAllStep
    | ReportStep(name: string, frac: real)
    | FireStep(name: string, initOk: bool, startOk: bool)
    | InFlightStep(name: string, frac: real)
    | AbandonStep(name: string)

  predicate Enabled(s: Sup, step: Step) {
    match step
    case LoadStep(_, _) => true
    case UnloadStep(_, _) => true
    case LifeStopStep => true
    case StopAllStep => s.lifeDone
    case ReportStep(_, frac) => JitterDraw(frac)
    case FireStep(name, _, _) => name in s.timers
    case InFlightStep(name, frac) => name in s.reports && JitterDraw(frac)
    case AbandonStep(name) => name in s.timers && s.lifeDone
  }

  ghost function Take(s: Sup, step: Step): Sup {
    match step
    case LoadStep(name, outcome) => Load(s, name, outcome)
    case UnloadStep(name, saveOk) => Unload(s, name, saveOk)
    case LifeStopStep => LifeStop(s)
    case StopAllStep => StopAll(s)
    case ReportStep(name, frac) => ReportFailure(s, name, frac)
    case FireStep(name, initOk, startOk) => Fire(s, name, initOk, startOk)
    case InFlightStep(name, frac) => InFlightReport(s, name, frac)
    case AbandonStep(name) => Abandon(s, name)
  }

  /** The state after a whole run. */
  ghost function Run(s: Sup, steps: seq<Step>): Sup {
    if steps == [] then s else Take(Run(s, steps[..|steps| - 1]), steps[|steps| - 1])
  }

  /** Every step of the run was possible when it was taken. */
  ghost predicate Possible(s: Sup, steps: seq<Step>) {
    steps == [] ||
    (Possible(s, steps[..|steps| - 1]) && Enabled(Run(s, steps[..|steps| - 1]), steps[|steps| - 1]))
  }
}
