/** What every step of the supervisor keeps. Each invariant is stated on the parts of the state it
    is about, proved for the collection updates the steps make, and then assembled. */
module SupervisorInvariants {
  import opened Common
  import opened Backoff
  import opened EnabledList
  import opened NameOrder
  import opened SupervisorModel

  // ---- Call histories and live instances ----

  /** Start succeeded and Stop has not been called since. */
  predicate Live(calls: seq<Call>) {
    Start(true) in calls && Stop !in calls
  }

  predicate Served(calls: seq<Call>) {
    && |calls| >= 2 && calls[0] == Init(true) && calls[1] == Start(true)
    && forall k :: 2 <= k < |calls| ==> calls[k] == Stop
  }

  /** Init comes before Start, each at most once; only a started instance is stopped, perhaps often. */
  predicate WellCalled(calls: seq<Call>) {
    || calls == []
    || calls == [Init(false)]
    || calls == [Init(true), Start(false)]
    || Served(calls)
  }

  predicate CallsInv(instances: seq<Instance>) {
    forall i :: 0 <= i < |instances| ==> WellCalled(instances[i].calls)
  }

  /** The instance recorded for a name belongs to that name and was started. */
  predicate RecordInv(loaded: map<string, Entry>, instances: seq<Instance>) {
    forall n :: n in loaded ==>
      && loaded[n].instance < |instances|
      && instances[loaded[n].instance].name == n
      && Served(instances[loaded[n].instance].calls)
  }

  /** A live instance is the one recorded for its name. */
  predicate LiveInv(loaded: map<string, Entry>, instances: seq<Instance>) {
    forall i :: 0 <= i < |instances| && Live(instances[i].calls) ==>
      instances[i].name in loaded && loaded[instances[i].name].instance == i
  }

  predicate InstanceInv(loaded: map<string, Entry>, instances: seq<Instance>) {
    CallsInv(instances) && RecordInv(loaded, instances) && LiveInv(loaded, instances)
  }

  /** The calls of the recorded instance. */
  function RecordedCalls(loaded: map<string, Entry>, instances: seq<Instance>, n: string): seq<Call>
    requires n in loaded
  {
    if loaded[n].instance < |instances| then instances[loaded[n].instance].calls else []
  }

  /** A module recorded as running is live, unless a failed restart of it is still to be reported. */
  predicate RunningInv(loaded: map<string, Entry>, instances: seq<Instance>, reports: multiset<string>) {
    forall n :: n in loaded && loaded[n].state == Running && reports[n] == 0 ==>
      Live(RecordedCalls(loaded, instances, n))
  }

  lemma FreshCalls(initOk: bool, startOk: bool)
    ensures WellCalled(CallsMade(initOk, startOk))
    ensures Live(CallsMade(initOk, startOk)) <==> initOk && startOk
    ensures initOk && startOk ==> Served(CallsMade(initOk, startOk))
  {
  }

  /** Stopping the recorded instance of a module: nobody of that name is live afterwards. */
  lemma StopKeeps(loaded: map<string, Entry>, instances: seq<Instance>, name: string)
    requires InstanceInv(loaded, instances) && name in loaded
    ensures
      var after := AfterStop(instances, loaded[name].instance);
      && |after| == |instances|
      && InstanceInv(loaded, after)
      && (forall i :: 0 <= i < |after| && after[i].name == name ==> !Live(after[i].calls))
      && (forall n :: n in loaded && n != name ==>
            RecordedCalls(loaded, after, n) == RecordedCalls(loaded, instances, n))
  {
  }

  /** Dropping the record of a module nobody of whose name is live. */
  lemma DropKeeps(loaded: map<string, Entry>, instances: seq<Instance>, name: string)
    requires InstanceInv(loaded, instances)
    requires forall i :: 0 <= i < |instances| && instances[i].name == name ==> !Live(instances[i].calls)
    ensures InstanceInv(loaded - {name}, instances)
  {
  }

  /** A newcomer that is not live changes nothing. */
  lemma DeadNewcomerKeeps(loaded: map<string, Entry>, instances: seq<Instance>, newcomer: Instance)
    requires InstanceInv(loaded, instances)
    requires WellCalled(newcomer.calls) && !Live(newcomer.calls)
    ensures InstanceInv(loaded, instances + [newcomer])
    ensures forall n :: n in loaded ==>
      RecordedCalls(loaded, instances + [newcomer], n) == RecordedCalls(loaded, instances, n)
  {
  }

  /** A newcomer that is live must be recorded, and may be when its name has nobody live. */
  lemma LiveNewcomerKeeps(loaded: map<string, Entry>, instances: seq<Instance>, newcomer: Instance, e: Entry)
    requires InstanceInv(loaded, instances)
    requires forall i :: 0 <= i < |instances| && instances[i].name == newcomer.name ==> !Live(instances[i].calls)
    requires Served(newcomer.calls) && e.instance == |instances|
    ensures InstanceInv(loaded[newcomer.name := e], instances + [newcomer])
    ensures forall n :: n in loaded && n != newcomer.name ==>
      RecordedCalls(loaded[newcomer.name := e], instances + [newcomer], n) == RecordedCalls(loaded, instances, n)
  {
  }

  lemma NobodyLive(loaded: map<string, Entry>, instances: seq<Instance>, name: string)
    requires LiveInv(loaded, instances) && name !in loaded
    ensures forall i :: 0 <= i < |instances| && instances[i].name == name ==> !Live(instances[i].calls)
  {
  }

  // ---- Contexts ----

  /** A context not yet cancelled is the one held for its module, and held contexts exist. */
  predicate ContextInv(loaded: map<string, Entry>, contexts: seq<Context>) {
    && (forall n :: n in loaded ==> loaded[n].ctx < |contexts| && contexts[loaded[n].ctx].owner == n)
    && (forall c :: 0 <= c < |contexts| && !contexts[c].cancelled ==>
          contexts[c].owner in loaded && loaded[contexts[c].owner].ctx == c)
  }

  predicate AllCancelled(contexts: seq<Context>, name: string) {
    forall c :: 0 <= c < |contexts| && contexts[c].owner == name ==> contexts[c].cancelled
  }

  lemma CancelKeeps(loaded: map<string, Entry>, contexts: seq<Context>, name: string)
    requires ContextInv(loaded, contexts) && name in loaded
    ensures
      var after := AfterCancel(contexts, loaded[name].ctx);
      |after| == |contexts| && ContextInv(loaded, after) && AllCancelled(after, name)
  {
  }

  lemma ContextDropKeeps(loaded: map<string, Entry>, contexts: seq<Context>, name: string)
    requires ContextInv(loaded, contexts) && AllCancelled(contexts, name)
    ensures ContextInv(loaded - {name}, contexts)
  {
  }

  lemma CancelledNewcomerKeeps(loaded: map<string, Entry>, contexts: seq<Context>, name: string)
    requires ContextInv(loaded, contexts)
    ensures ContextInv(loaded, contexts + [Context(name, true)])
  {
  }

  lemma HeldNewcomerKeeps(loaded: map<string, Entry>, contexts: seq<Context>, name: string, e: Entry)
    requires ContextInv(loaded, contexts) && AllCancelled(contexts, name) && e.ctx == |contexts|
    ensures ContextInv(loaded[name := e], contexts + [Context(name, false)])
  {
  }

  // ---- Restart accounting ----

  /** How many restarts one load has scheduled after `attempt` failures. */
  function Scheduled(attempt: nat, maxRestart: int): nat {
    if maxRestart < 1 then 0 else if attempt < maxRestart then attempt else maxRestart - 1
  }

  predicate DelaysInBand(bc: BackoffConfig, delays: seq<real>) {
    forall j :: 0 <= j < |delays| ==> InBand(bc, j, delays[j])
  }

  predicate EntryInv(e: Entry, maxRestart: int, bc: BackoffConfig) {
    && e.state in {Running, Degraded, Failed}
    && (e.state == Degraded ==> e.restartAttempt < maxRestart)
    && (e.state == Failed ==> e.restartAttempt >= maxRestart)
    && |e.delays| == Scheduled(e.restartAttempt, maxRestart)
    && (Sensible(bc) ==> DelaysInBand(bc, e.delays))
  }

  predicate RestartInv(s: Sup) {
    forall n :: n in s.loaded ==> EntryInv(s.loaded[n], s.maxRestart, s.backoff)
  }

  lemma {:induction false} ScheduleInBand(e: Entry, maxRestart: int, bc: BackoffConfig, frac: real)
    requires EntryInv(e, maxRestart, bc) && e.restartAttempt + 1 < maxRestart && JitterDraw(frac)
    ensures Sensible(bc) ==> DelaysInBand(bc, e.delays + [BackoffFor(bc, e.restartAttempt, frac)])
  {
    if Sensible(bc) {
      JitterStaysInBand(bc, e.restartAttempt, frac);
    }
  }

  lemma ReportKeepsRestarts(s: Sup, name: string, frac: real)
    requires RestartInv(s) && JitterDraw(frac)
    ensures RestartInv(ReportFailure(s, name, frac))
  {
    if name in s.loaded && s.loaded[name].restartAttempt + 1 < s.maxRestart {
      ScheduleInBand(s.loaded[name], s.maxRestart, s.backoff, frac);
    }
  }

  /** Until shutdown begins, a degraded module has a restart or a failure report coming. */
  predicate NotStranded(s: Sup) {
    !s.lifeDone ==>
      forall n :: n in s.loaded && s.loaded[n].state == Degraded ==> n in s.timers || n in s.reports
  }

  // ---- Events ----

  /** What an observer of the state-changed events believes about each module. */
  function Replay(events: seq<Event>): map<string, ModuleState> {
    if events == [] then map[]
    else
      var before := Replay(events[..|events| - 1]);
      match events[|events| - 1]
      case StateChanged(name, state) => before[name := state]
      case ErrorRaised(_) => before
  }

  /** Outside the window between a failed restart and its report, the events tell the recorded state. */
  predicate ReplayInv(s: Sup) {
    forall n :: n in s.loaded && n in s.hosted && s.reports[n] == 0 ==>
      n in Replay(s.events) && Replay(s.events)[n] == s.loaded[n].state
  }

  /** An observer never takes a module that is not loaded for a running or degraded one. */
  predicate IdleInv(s: Sup) {
    forall n :: n !in s.loaded && n in s.hosted && n in Replay(s.events) ==>
      Replay(s.events)[n] in {Initializing, Failed, Stopped}
  }

  /** The last state a list of events announces. */
  function LastState(events: seq<Event>): Option<ModuleState> {
    if events == [] then None
    else
      match events[|events| - 1]
      case StateChanged(_, state) => Some(state)
      case ErrorRaised(_) => LastState(events[..|events| - 1])
  }

  /** Replaying more events about one module moves only that module, to the last state announced. */
  lemma {:induction false} ReplayMore(events: seq<Event>, more: seq<Event>, name: string)
    requires forall k :: 0 <= k < |more| ==> more[k].name == name
    ensures Replay(events + more)
         == match LastState(more) case None => Replay(events) case Some(state) => Replay(events)[name := state]
  {
    if more == [] {
      assert events + more == events;
    } else {
      ReplayMore(events, more[..|more| - 1], name);
      assert (events + more)[..|events + more| - 1] == events + more[..|more| - 1];
    }
  }

  lemma AnnouncedStates(name: string, o: LoadOutcome, initOk: bool, startOk: bool)
    ensures LastState(LoadEvents(name, o))
         == if !o.licensed then None
            else if !o.initOk then Some(Initializing)
            else if !o.startOk then Some(Failed)
            else Some(Running)
    ensures LastState(RestartEvents(name, initOk, startOk)) == if initOk then Some(Running) else Some(Initializing)
    ensures LastState([StateChanged(name, Failed), ErrorRaised(name)]) == Some(Failed)
    ensures LastState([StateChanged(name, Stopping), StateChanged(name, Stopped)]) == Some(Stopped)
  {
    assert [StateChanged(name, Failed), ErrorRaised(name)][..1] == [StateChanged(name, Failed)];
    assert [StateChanged(name, Initializing), ErrorRaised(name)][..1] == [StateChanged(name, Initializing)];
    assert [StateChanged(name, Initializing), StateChanged(name, Running), ErrorRaised(name)][..2]
        == [StateChanged(name, Initializing), StateChanged(name, Running)];
  }

  // ---- Names ----

  predicate NamesInv(s: Sup) {
    forall n :: n in s.loaded ==> n in s.registry && n in s.enabled
  }

  /** Load numbers identify loads. */
  predicate LoadNoInv(s: Sup) {
    && (forall n :: n in s.loaded ==> s.loaded[n].loadNo < s.loads)
    && (forall m, n :: m in s.loaded && n in s.loaded && m != n ==> s.loaded[m].loadNo != s.loaded[n].loadNo)
  }

  // ---- Everything together ----

  predicate LifeInv(s: Sup) {
    InstanceInv(s.loaded, s.instances) && RunningInv(s.loaded, s.instances, s.reports) && ContextInv(s.loaded, s.contexts)
  }

  predicate BookInv(s: Sup) {
    RestartInv(s) && NotStranded(s) && NamesInv(s) && LoadNoInv(s)
  }

  predicate Inv(s: Sup) {
    LifeInv(s) && BookInv(s) && ReplayInv(s) && IdleInv(s)
  }

  /** Nothing loaded, nothing outstanding; the enabled list may already have been read from disk. */
  predicate Initial(s: Sup) {
    && s.loaded == map[] && !s.lifeDone
    && s.instances == [] && s.contexts == [] && s.events == []
    && s.timers == multiset{} && s.reports == multiset{}
  }

  lemma {:induction false} LoadKeepsLife(s: Sup, name: string, o: LoadOutcome)
    requires LifeInv(s)
    ensures LifeInv(Load(s, name, o))
  {
    var t := Load(s, name, o);
    if name !in s.loaded && name in s.registry {
      FreshCalls(o.initOk, o.startOk);
      NobodyLive(s.loaded, s.instances, name);
      var newcomer := t.instances[|s.instances|];
      if o.licensed && o.initOk && o.startOk {
        LiveNewcomerKeeps(s.loaded, s.instances, newcomer, t.loaded[name]);
        HeldNewcomerKeeps(s.loaded, s.contexts, name, t.loaded[name]);
      } else {
        DeadNewcomerKeeps(s.loaded, s.instances, newcomer);
        CancelledNewcomerKeeps(s.loaded, s.contexts, name);
        assert s.contexts + [] == s.contexts;
      }
    }
  }

  lemma LoadKeepsBooks(s: Sup, name: string, o: LoadOutcome)
    requires BookInv(s)
    ensures BookInv(Load(s, name, o))
  {
  }

  lemma LoadKeepsReplay(s: Sup, name: string, o: LoadOutcome)
    requires ReplayInv(s)
    ensures ReplayInv(Load(s, name, o))
  {
    ReplayMore(s.events, LoadEvents(name, o), name);
    AnnouncedStates(name, o, true, true);
  }

  /** Loading ends, for an observer, in Running only if it succeeds. */
  lemma LoadKeepsIdle(s: Sup, name: string, o: LoadOutcome)
    requires IdleInv(s)
    ensures IdleInv(Load(s, name, o))
  {
    ReplayMore(s.events, LoadEvents(name, o), name);
    AnnouncedStates(name, o, true, true);
  }

  lemma StopKeepsIdle(s: Sup, name: string)
    requires IdleInv(s)
    ensures IdleInv(StopLocked(s, name))
  {
    ReplayMore(s.events, [StateChanged(name, Stopping), StateChanged(name, Stopped)], name);
  }

  lemma StopKeepsLife(s: Sup, name: string)
    requires LifeInv(s)
    ensures LifeInv(StopLocked(s, name))
  {
    if name in s.loaded {
      StopKeeps(s.loaded, s.instances, name);
      DropKeeps(s.loaded, AfterStop(s.instances, s.loaded[name].instance), name);
      CancelKeeps(s.loaded, s.contexts, name);
      ContextDropKeeps(s.loaded, AfterCancel(s.contexts, s.loaded[name].ctx), name);
    }
  }

  lemma StopKeepsBooks(s: Sup, name: string)
    requires BookInv(s)
    ensures BookInv(StopLocked(s, name))
  {
  }

  lemma StopKeepsReplay(s: Sup, name: string)
    requires ReplayInv(s)
    ensures ReplayInv(StopLocked(s, name))
  {
    ReplayMore(s.events, [StateChanged(name, Stopping), StateChanged(name, Stopped)], name);
  }

  lemma {:induction false} StopKeepsInv(s: Sup, name: string)
    requires Inv(s)
    ensures Inv(StopLocked(s, name))
  {
    StopKeepsLife(s, name);
    StopKeepsBooks(s, name);
    StopKeepsReplay(s, name);
    StopKeepsIdle(s, name);
  }

  lemma LoadKeepsInv(s: Sup, name: string, o: LoadOutcome)
    requires Inv(s)
    ensures Inv(Load(s, name, o))
  {
    LoadKeepsLife(s, name, o);
    LoadKeepsBooks(s, name, o);
    LoadKeepsReplay(s, name, o);
    LoadKeepsIdle(s, name, o);
  }

  lemma {:induction false} UnloadKeepsInv(s: Sup, name: string, saveOk: bool)
    requires Inv(s)
    ensures Inv(Unload(s, name, saveOk))
  {
    StopKeepsInv(s, name);
    WithoutMembers(s.enabled, name);
  }

  lemma {:induction false} StopEachKeepsInv(s: Sup, names: seq<string>)
    requires Inv(s)
    ensures Inv(StopEach(s, names))
  {
    if names != [] {
      StopEachKeepsInv(s, names[..|names| - 1]);
      StopKeepsInv(StopEach(s, names[..|names| - 1]), names[|names| - 1]);
    }
  }

  /** A report also repairs what a failed restart left open for its own module, so it needs the
      running and replay invariants only for the others. */
  predicate RunningExcept(s: Sup, name: string) {
    forall n :: n in s.loaded && n != name && s.loaded[n].state == Running && s.reports[n] == 0 ==>
      Live(RecordedCalls(s.loaded, s.instances, n))
  }

  predicate ReplayExcept(s: Sup, name: string) {
    forall n :: n in s.loaded && n != name && n in s.hosted && s.reports[n] == 0 ==>
      n in Replay(s.events) && Replay(s.events)[n] == s.loaded[n].state
  }

  /** Announcing a state other than Running, with the instance and the context as they were. */
  lemma AnnounceKeepsLife(s: Sup, name: string, e: Entry, events: seq<Event>)
    requires InstanceInv(s.loaded, s.instances) && ContextInv(s.loaded, s.contexts) && RunningExcept(s, name)
    requires name in s.loaded && e.instance == s.loaded[name].instance && e.ctx == s.loaded[name].ctx
    requires e.state != Running
    ensures LifeInv(Announce(s, name, e, events))
  {
  }

  lemma {:induction false} AnnounceKeepsReplay(s: Sup, name: string, e: Entry, events: seq<Event>)
    requires ReplayExcept(s, name)
    requires (forall k :: 0 <= k < |events| ==> events[k].name == name) && LastState(events) == Some(e.state)
    ensures ReplayInv(Announce(s, name, e, events))
  {
    ReplayMore(s.events, events, name);
  }

  lemma {:induction false} ReportKeepsLife(s: Sup, name: string, frac: real)
    requires InstanceInv(s.loaded, s.instances) && ContextInv(s.loaded, s.contexts) && RunningExcept(s, name)
    ensures LifeInv(ReportFailure(s, name, frac))
  {
    if name in s.loaded {
      var e := s.loaded[name];
      AnnounceKeepsLife(s, name, Parked(e), [StateChanged(name, Failed), ErrorRaised(name)]);
      AnnounceKeepsLife(s, name, Waiting(e, BackoffFor(s.backoff, e.restartAttempt, frac)), [StateChanged(name, Degraded)]);
    }
  }

  lemma {:induction false} ReportKeepsBooks(s: Sup, name: string, frac: real)
    requires RestartInv(s) && NamesInv(s) && LoadNoInv(s) && JitterDraw(frac)
    requires !s.lifeDone ==>
      forall n :: n in s.loaded && n != name && s.loaded[n].state == Degraded ==> n in s.timers || n in s.reports
    ensures BookInv(ReportFailure(s, name, frac))
  {
    ReportKeepsRestarts(s, name, frac);
    ReportKeepsNames(s, name, frac);
  }

  lemma ReportKeepsNames(s: Sup, name: string, frac: real)
    requires NamesInv(s) && LoadNoInv(s)
    ensures NamesInv(ReportFailure(s, name, frac)) && LoadNoInv(ReportFailure(s, name, frac))
  {
  }

  lemma ReportKeepsReplay(s: Sup, name: string, frac: real)
    requires ReplayExcept(s, name)
    ensures ReplayInv(ReportFailure(s, name, frac))
  {
    if name in s.loaded {
      var e := s.loaded[name];
      AnnouncedStates(name, LoadOutcome(true, true, true, true), true, true);
      AnnounceKeepsReplay(s, name, Parked(e), [StateChanged(name, Failed), ErrorRaised(name)]);
      AnnounceKeepsReplay(s, name, Waiting(e, BackoffFor(s.backoff, e.restartAttempt, frac)), [StateChanged(name, Degraded)]);
    }
  }

  lemma ReportKeepsIdle(s: Sup, name: string, frac: real)
    requires IdleInv(s)
    ensures IdleInv(ReportFailure(s, name, frac))
  {
    ReplayMore(s.events, [StateChanged(name, Degraded)], name);
    ReplayMore(s.events, [StateChanged(name, Failed), ErrorRaised(name)], name);
  }

  lemma FireKeepsIdle(s: Sup, name: string, initOk: bool, startOk: bool)
    requires IdleInv(s)
    ensures IdleInv(Fire(s, name, initOk, startOk))
  {
    ReplayMore(s.events, RestartEvents(name, initOk, startOk), name);
  }

  lemma {:induction false} ReportKeepsInv(s: Sup, name: string, frac: real)
    requires Inv(s) && JitterDraw(frac)
    ensures Inv(ReportFailure(s, name, frac))
  {
    ReportKeepsLife(s, name, frac);
    ReportKeepsBooks(s, name, frac);
    ReportKeepsReplay(s, name, frac);
    ReportKeepsIdle(s, name, frac);
  }

  lemma InFlightKeepsInv(s: Sup, name: string, frac: real)
    requires Inv(s) && JitterDraw(frac)
    ensures Inv(InFlightReport(s, name, frac))
  {
    var s1 := s.(reports := s.reports - multiset{name});
    assert forall n :: n != name ==> s1.reports[n] == s.reports[n];
    assert forall n :: n != name && n in s.reports ==> s1.reports[n] > 0;
    ReportKeepsLife(s1, name, frac);
    ReportKeepsBooks(s1, name, frac);
    ReportKeepsReplay(s1, name, frac);
    ReportKeepsIdle(s1, name, frac);
  }

  lemma {:induction false} RestartKeepsInstances(s: Sup, name: string, initOk: bool, startOk: bool)
    requires LifeInv(s) && name in s.loaded
    ensures
      var t := Restart(s, name, initOk, startOk);
      InstanceInv(t.loaded, t.instances) && RunningInv(t.loaded, t.instances, t.reports)
  {
    var t := Restart(s, name, initOk, startOk);
    var stopped := AfterStop(s.instances, s.loaded[name].instance);
    var newcomer := Instance(name, CallsMade(initOk, startOk));
    StopKeeps(s.loaded, s.instances, name);
    FreshCalls(initOk, startOk);
    assert t.instances == stopped + [newcomer];
    if initOk && startOk {
      LiveNewcomerKeeps(s.loaded, stopped, newcomer, t.loaded[name]);
    } else {
      DeadNewcomerKeeps(s.loaded, stopped, newcomer);
    }
  }

  lemma RestartKeepsContexts(s: Sup, name: string, initOk: bool, startOk: bool)
    requires ContextInv(s.loaded, s.contexts) && name in s.loaded
    ensures
      var t := Restart(s, name, initOk, startOk);
      ContextInv(t.loaded, t.contexts)
  {
    var t := Restart(s, name, initOk, startOk);
    CancelKeeps(s.loaded, s.contexts, name);
    var after := AfterCancel(s.contexts, s.loaded[name].ctx);
    if initOk && startOk {
      HeldNewcomerKeeps(s.loaded, after, name, t.loaded[name]);
    } else {
      CancelledNewcomerKeeps(s.loaded, after, name);
    }
  }

  lemma FireKeepsRestarts(s: Sup, name: string, initOk: bool, startOk: bool)
    requires RestartInv(s)
    ensures RestartInv(Fire(s, name, initOk, startOk))
  {
  }

  lemma FireKeepsNames(s: Sup, name: string, initOk: bool, startOk: bool)
    requires NamesInv(s) && LoadNoInv(s)
    ensures NamesInv(Fire(s, name, initOk, startOk)) && LoadNoInv(Fire(s, name, initOk, startOk))
  {
  }

  /** The timer that fires is gone, so the module it restarts must end up running or reported. */
  lemma FireStrandsNobody(s: Sup, name: string, initOk: bool, startOk: bool)
    requires NotStranded(s)
    ensures NotStranded(Fire(s, name, initOk, startOk))
  {
    var t := Fire(s, name, initOk, startOk);
    forall n | n in t.loaded && t.loaded[n].state == Degraded && !t.lifeDone
      ensures n in t.timers || n in t.reports
    {
      if n == name {
        assert t.reports == s.reports + multiset{name};
      } else {
        assert t.timers[n] == s.timers[n] && t.reports[n] == s.reports[n];
      }
    }
  }

  lemma FireKeepsReplay(s: Sup, name: string, initOk: bool, startOk: bool)
    requires ReplayInv(s)
    ensures ReplayInv(Fire(s, name, initOk, startOk))
  {
    ReplayMore(s.events, RestartEvents(name, initOk, startOk), name);
    AnnouncedStates(name, LoadOutcome(true, true, true, true), initOk, startOk);
  }

  lemma {:induction false} FireKeepsInv(s: Sup, name: string, initOk: bool, startOk: bool)
    requires Inv(s)
    ensures Inv(Fire(s, name, initOk, startOk))
  {
    var s1 := s.(timers := s.timers - multiset{name});
    if name in s.loaded {
      RestartKeepsInstances(s1, name, initOk, startOk);
      RestartKeepsContexts(s1, name, initOk, startOk);
    }
    FireKeepsRestarts(s, name, initOk, startOk);
    FireKeepsNames(s, name, initOk, startOk);
    FireStrandsNobody(s, name, initOk, startOk);
    FireKeepsReplay(s, name, initOk, startOk);
    FireKeepsIdle(s, name, initOk, startOk);
  }

  /** Every step keeps every invariant. */
  lemma {:induction false} StepKeepsInv(s: Sup, step: Step)
    requires Inv(s) && Enabled(s, step)
    ensures Inv(Take(s, step))
  {
    match step
    case LoadStep(name, o) => LoadKeepsInv(s, name, o);
    case UnloadStep(name, saveOk) => UnloadKeepsInv(s, name, saveOk);
    case LifeStopStep =>
    case StopAllStep => StopEachKeepsInv(s, Descending(s.loaded.Keys));
    case ReportStep(name, frac) => ReportKeepsInv(s, name, frac);
    case FireStep(name, initOk, startOk) => FireKeepsInv(s, name, initOk, startOk);
    case InFlightStep(name, frac) => InFlightKeepsInv(s, name, frac);
    case AbandonStep(name) =>
  }

  /** The invariants hold in every reachable state. */
  lemma {:induction false} RunKeepsInv(s: Sup, steps: seq<Step>)
    requires Inv(s) && Possible(s, steps)
    ensures Inv(Run(s, steps))
  {
    if steps != [] {
      RunKeepsInv(s, steps[..|steps| - 1]);
      StepKeepsInv(Run(s, steps[..|steps| - 1]), steps[|steps| - 1]);
    }
  }
}
