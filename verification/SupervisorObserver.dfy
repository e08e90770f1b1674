/** What an observer of a module's events can tell: an automaton that follows the announcements, and the books
    it balances with the calls actually made. */
module SupervisorObserver {
  import opened NameOrder
  import opened SupervisorModel
  import opened SupervisorInvariants
  import opened SupervisorRuns

  // ---- The observer ----

  /** Where a module is in its life, going by its announcements. `Fresh` is a first start announced, which may
      still fail; `Confused` is reached by announcements that make no sense. */
  datatype Phase = Off | Loading | Fresh | LoadFailing | Settled | Parking | Reloading | Restarted | Ending | Confused

  predicate On(p: Phase) {
    p in {Fresh, Settled, Restarted}
  }

  function Heard(p: Phase, e: Event): Phase {
    match e
    case ErrorRaised(_) =>
      (match p
       case Loading => Off
       case Fresh => LoadFailing
       case Parking => Settled
       case Reloading => Settled
       case Restarted => Settled
       case _ => Confused)
    case StateChanged(_, state) =>
      match state
      case Initializing => if p == Off then Loading else if On(p) then Reloading else Confused
      case Running => if p == Loading then Fresh else if p == Reloading then Restarted else Confused
      case Degraded => if On(p) then Settled else Confused
      case Failed => if On(p) then Parking else if p == LoadFailing then Off else Confused
      case Stopping => if On(p) then Ending else Confused
      case Stopped => if p == Ending then Off else Confused
      case Disabled => Confused
  }

  function HeardAll(p: Phase, events: seq<Event>, n: string): Phase {
    if events == [] then p
    else
      var before, last := HeardAll(p, events[..|events| - 1], n), events[|events| - 1];
      if last.name == n then Heard(before, last) else before
  }

  function PhaseOf(events: seq<Event>, n: string): Phase {
    HeardAll(Off, events, n)
  }

  lemma {:induction false} HeardMore(p: Phase, events: seq<Event>, more: seq<Event>, n: string)
    ensures HeardAll(p, events + more, n) == HeardAll(HeardAll(p, events, n), more, n)
  {
    if more == [] {
      assert events + more == events;
    } else {
      HeardMore(p, events, more[..|more| - 1], n);
      assert (events + more)[..|events + more| - 1] == events + more[..|more| - 1];
    }
  }

  lemma {:induction false} HeardOthers(p: Phase, more: seq<Event>, name: string, n: string)
    requires name != n && forall k :: 0 <= k < |more| ==> more[k].name == name
    ensures HeardAll(p, more, n) == p
  {
    if more != [] {
      HeardOthers(p, more[..|more| - 1], name, n);
    }
  }

  lemma HeardOne(p: Phase, a: Event)
    ensures HeardAll(p, [a], a.name) == Heard(p, a)
  {
    assert [a][..0] == [];
  }

  lemma HeardTwo(p: Phase, a: Event, b: Event)
    requires a.name == b.name
    ensures HeardAll(p, [a, b], a.name) == Heard(Heard(p, a), b)
  {
    assert [a, b][..1] == [a];
    HeardOne(p, a);
  }

  lemma HeardThree(p: Phase, a: Event, b: Event, c: Event)
    requires a.name == b.name == c.name
    ensures HeardAll(p, [a, b, c], a.name) == Heard(Heard(Heard(p, a), b), c)
  {
    assert [a, b, c][..2] == [a, b];
    HeardTwo(p, a, b);
  }

  lemma HeardFour(p: Phase, a: Event, b: Event, c: Event, d: Event)
    requires a.name == b.name == c.name == d.name
    ensures HeardAll(p, [a, b, c, d], a.name) == Heard(Heard(Heard(Heard(p, a), b), c), d)
  {
    assert [a, b, c, d][..3] == [a, b, c];
    HeardThree(p, a, b, c);
  }

  // ---- Each announcement makes sense ----

  lemma LoadHeard(name: string, o: LoadOutcome)
    ensures HeardAll(Off, LoadEvents(name, o), name) == if o.licensed && o.initOk && o.startOk then Fresh else Off
  {
    var init, run, err, fail :=
      StateChanged(name, Initializing), StateChanged(name, Running), ErrorRaised(name), StateChanged(name, Failed);
    HeardTwo(Off, init, err);
    HeardTwo(Off, init, run);
    HeardFour(Off, init, run, err, fail);
  }

  lemma RestartHeard(p: Phase, name: string, initOk: bool, startOk: bool)
    requires On(p)
    ensures On(HeardAll(p, RestartEvents(name, initOk, startOk), name))
  {
    var init, run, err := StateChanged(name, Initializing), StateChanged(name, Running), ErrorRaised(name);
    HeardTwo(p, init, err);
    HeardTwo(p, init, run);
    HeardThree(p, init, run, err);
  }

  lemma StopHeard(p: Phase, name: string)
    requires On(p)
    ensures HeardAll(p, [StateChanged(name, Stopping), StateChanged(name, Stopped)], name) == Off
  {
    HeardTwo(p, StateChanged(name, Stopping), StateChanged(name, Stopped));
  }

  lemma ReportHeard(p: Phase, name: string)
    requires On(p)
    ensures On(HeardAll(p, [StateChanged(name, Degraded)], name))
    ensures On(HeardAll(p, [StateChanged(name, Failed), ErrorRaised(name)], name))
  {
    HeardOne(p, StateChanged(name, Degraded));
    HeardTwo(p, StateChanged(name, Failed), ErrorRaised(name));
  }

  // ---- The observer is right ----

  /** The observer takes a module for up exactly when it is loaded, and is never confused. */
  predicate Follows(events: seq<Event>, loaded: set<string>, n: string) {
    if n in loaded then On(PhaseOf(events, n)) else PhaseOf(events, n) == Off
  }

  /** Announcements about one module that lead the observer where the step leads the module. */
  lemma FollowsMore(events: seq<Event>, loaded: set<string>, loaded': set<string>, more: seq<Event>, name: string, n: string)
    requires Follows(events, loaded, n)
    requires forall k :: 0 <= k < |more| ==> more[k].name == name
    requires n != name ==> (n in loaded' <==> n in loaded)
    requires n == name ==>
      var p := HeardAll(PhaseOf(events, n), more, n);
      if n in loaded' then On(p) else p == Off
    ensures Follows(events + more, loaded', n)
  {
    HeardMore(Off, events, more, n);
    if n != name {
      HeardOthers(PhaseOf(events, n), more, name, n);
    }
  }

  lemma {:induction false} LoadFollows(s: Sup, name: string, o: LoadOutcome, n: string)
    requires Follows(s.events, s.loaded.Keys, n) && n in s.hosted
    ensures Follows(Load(s, name, o).events, Load(s, name, o).loaded.Keys, n)
  {
    LoadHeard(name, o);
    var t := Load(s, name, o);
    if name in s.hosted && name !in s.loaded && name in s.registry {
      FollowsMore(s.events, s.loaded.Keys, t.loaded.Keys, LoadEvents(name, o), name, n);
    }
  }

  lemma {:induction false} StopFollows(s: Sup, name: string, n: string)
    requires Follows(s.events, s.loaded.Keys, n) && n in s.hosted
    ensures Follows(StopLocked(s, name).events, StopLocked(s, name).loaded.Keys, n)
  {
    if name in s.hosted && name in s.loaded {
      if name == n {
        StopHeard(PhaseOf(s.events, n), name);
      }
      FollowsMore(s.events, s.loaded.Keys, s.loaded.Keys - {name},
                  [StateChanged(name, Stopping), StateChanged(name, Stopped)], name, n);
    }
  }

  lemma {:induction false} StopEachFollows(s: Sup, names: seq<string>, n: string)
    requires Follows(s.events, s.loaded.Keys, n) && n in s.hosted
    ensures Follows(StopEach(s, names).events, StopEach(s, names).loaded.Keys, n)
  {
    if names != [] {
      StopEachFollows(s, names[..|names| - 1], n);
      StopEachFrame(s, names[..|names| - 1]);
      StopFollows(StopEach(s, names[..|names| - 1]), names[|names| - 1], n);
    }
  }

  lemma {:induction false} ReportFollows(s: Sup, name: string, frac: real, n: string)
    requires Follows(s.events, s.loaded.Keys, n) && n in s.hosted
    ensures Follows(ReportFailure(s, name, frac).events, ReportFailure(s, name, frac).loaded.Keys, n)
  {
    if name in s.hosted && name in s.loaded {
      if name == n {
        ReportHeard(PhaseOf(s.events, n), name);
      }
      var more := if s.loaded[name].restartAttempt + 1 >= s.maxRestart
        then [StateChanged(name, Failed), ErrorRaised(name)] else [StateChanged(name, Degraded)];
      FollowsMore(s.events, s.loaded.Keys, s.loaded.Keys, more, name, n);
      ReportKeys(s, name, frac);
    }
  }

  lemma ReportKeys(s: Sup, name: string, frac: real)
    ensures ReportFailure(s, name, frac).loaded.Keys == s.loaded.Keys
  {
  }

  lemma FireKeys(s: Sup, name: string, initOk: bool, startOk: bool)
    ensures Fire(s, name, initOk, startOk).loaded.Keys == s.loaded.Keys
  {
  }

  lemma {:induction false} FireFollows(s: Sup, name: string, initOk: bool, startOk: bool, n: string)
    requires Follows(s.events, s.loaded.Keys, n) && n in s.hosted
    ensures Follows(Fire(s, name, initOk, startOk).events, Fire(s, name, initOk, startOk).loaded.Keys, n)
  {
    FireKeys(s, name, initOk, startOk);
    if name in s.hosted && name in s.loaded {
      if name == n {
        RestartHeard(PhaseOf(s.events, n), name, initOk, startOk);
      }
      FollowsMore(s.events, s.loaded.Keys, s.loaded.Keys, RestartEvents(name, initOk, startOk), name, n);
    }
  }

  lemma {:induction false} StepFollows(s: Sup, step: Step, n: string)
    requires Follows(s.events, s.loaded.Keys, n) && n in s.hosted
    ensures Follows(Take(s, step).events, Take(s, step).loaded.Keys, n)
  {
    match step
    case LoadStep(name, o) => LoadFollows(s, name, o, n);
    case UnloadStep(name, saveOk) => StopFollows(s, name, n);
    case LifeStopStep =>
    case StopAllStep => StopEachFollows(s, Descending(s.loaded.Keys), n);
    case ReportStep(name, frac) => ReportFollows(s, name, frac, n);
    case FireStep(name, initOk, startOk) => FireFollows(s, name, initOk, startOk, n);
    case InFlightStep(name, frac) => ReportFollows(s.(reports := s.reports - multiset{name}), name, frac, n);
    case AbandonStep(name) =>
  }

  /** In every run, whatever fails and however steps interleave, the announcements of a module follow its life
      cycle, and an observer of them knows whether it is loaded. */
  lemma {:induction false} ObserverKnows(s: Sup, steps: seq<Step>, n: string)
    requires Initial(s) && n in s.hosted
    ensures n in Run(s, steps).loaded <==> On(PhaseOf(Run(s, steps).events, n))
    ensures n !in Run(s, steps).loaded <==> PhaseOf(Run(s, steps).events, n) == Off
  {
    RunFollows(s, steps, n);
  }

  lemma {:induction false} RunFollows(s: Sup, steps: seq<Step>, n: string)
    requires Initial(s) && n in s.hosted
    ensures Follows(Run(s, steps).events, Run(s, steps).loaded.Keys, n)
  {
    if steps != [] {
      RunFollows(s, steps[..|steps| - 1], n);
      RunKeepsConfig(s, steps[..|steps| - 1]);
      StepFollows(Run(s, steps[..|steps| - 1]), steps[|steps| - 1], n);
    }
  }

  // ---- Nobody else is announced ----

  predicate OnlyHosted(events: seq<Event>, hosted: set<string>) {
    forall k :: 0 <= k < |events| ==> events[k].name in hosted
  }

  lemma PublishedHosted(hosted: set<string>, events: seq<Event>, name: string, more: seq<Event>)
    requires OnlyHosted(events, hosted) && forall k :: 0 <= k < |more| ==> more[k].name == name
    ensures OnlyHosted(Published(hosted, events, name, more), hosted)
  {
  }

  lemma {:induction false} StopEachHosted(s: Sup, names: seq<string>)
    requires OnlyHosted(s.events, s.hosted)
    ensures OnlyHosted(StopEach(s, names).events, s.hosted)
  {
    if names != [] {
      StopEachHosted(s, names[..|names| - 1]);
      StopEachFrame(s, names[..|names| - 1]);
    }
  }

  lemma LoadHosted(s: Sup, name: string, o: LoadOutcome)
    requires OnlyHosted(s.events, s.hosted)
    ensures OnlyHosted(Load(s, name, o).events, s.hosted)
  {
    PublishedHosted(s.hosted, s.events, name, LoadEvents(name, o));
  }

  lemma FireHosted(s: Sup, name: string, initOk: bool, startOk: bool)
    requires OnlyHosted(s.events, s.hosted)
    ensures OnlyHosted(Fire(s, name, initOk, startOk).events, s.hosted)
  {
    PublishedHosted(s.hosted, s.events, name, RestartEvents(name, initOk, startOk));
  }

  lemma ReportHosted(s: Sup, name: string, frac: real)
    requires OnlyHosted(s.events, s.hosted)
    ensures OnlyHosted(ReportFailure(s, name, frac).events, s.hosted)
  {
    PublishedHosted(s.hosted, s.events, name, [StateChanged(name, Degraded)]);
    PublishedHosted(s.hosted, s.events, name, [StateChanged(name, Failed), ErrorRaised(name)]);
  }

  lemma StopHosted(s: Sup, name: string)
    requires OnlyHosted(s.events, s.hosted)
    ensures OnlyHosted(StopLocked(s, name).events, s.hosted)
  {
    PublishedHosted(s.hosted, s.events, name, [StateChanged(name, Stopping), StateChanged(name, Stopped)]);
  }

  lemma {:induction false} StepHosted(s: Sup, step: Step)
    requires OnlyHosted(s.events, s.hosted)
    ensures OnlyHosted(Take(s, step).events, s.hosted)
  {
    match step
    case LoadStep(name, o) => LoadHosted(s, name, o);
    case UnloadStep(name, saveOk) => StopHosted(s, name);
    case LifeStopStep =>
    case StopAllStep => StopEachHosted(s, Descending(s.loaded.Keys));
    case ReportStep(name, frac) => ReportHosted(s, name, frac);
    case FireStep(name, initOk, startOk) => FireHosted(s, name, initOk, startOk);
    case InFlightStep(name, frac) => ReportHosted(s.(reports := s.reports - multiset{name}), name, frac);
    case AbandonStep(name) =>
  }

  /** Modules without a host are never announced. */
  lemma {:induction false} OnlyHostedAnnounced(s: Sup, steps: seq<Step>)
    requires Initial(s)
    ensures OnlyHosted(Run(s, steps).events, s.hosted)
  {
    if steps != [] {
      OnlyHostedAnnounced(s, steps[..|steps| - 1]);
      RunKeepsConfig(s, steps[..|steps| - 1]);
      StepHosted(Run(s, steps[..|steps| - 1]), steps[|steps| - 1]);
    }
  }

  // ---- The books balance ----

  /** What is counted: calls of Init, of those the successful ones, calls of Start, calls of Stop. */
  datatype Kind = Inits | GoodInits | Starts | Stops

  function OfCall(c: Call, kind: Kind): nat {
    match kind
    case Inits => if c.Init? then 1 else 0
    case GoodInits => if c == Init(true) then 1 else 0
    case Starts => if c.Start? then 1 else 0
    case Stops => if c == Stop then 1 else 0
  }

  function OfCalls(calls: seq<Call>, kind: Kind): nat {
    if calls == [] then 0 else OfCalls(calls[..|calls| - 1], kind) + OfCall(calls[|calls| - 1], kind)
  }

  function OfInstance(i: Instance, n: string, kind: Kind): nat {
    if i.name == n then OfCalls(i.calls, kind) else 0
  }

  /** The calls made on all instances of a module. */
  function Made(instances: seq<Instance>, n: string, kind: Kind): nat {
    if instances == [] then 0
    else Made(instances[..|instances| - 1], n, kind) + OfInstance(instances[|instances| - 1], n, kind)
  }

  /** The calls an announcement stands for: Initializing for an Init, and if the module was up for a Stop;
      Running for a successful Init and a Start; Stopped for a Stop. */
  function OfEvent(p: Phase, e: Event, n: string, kind: Kind): nat {
    match kind
    case Inits => if e == StateChanged(n, Initializing) then 1 else 0
    case GoodInits => if e == StateChanged(n, Running) then 1 else 0
    case Starts => if e == StateChanged(n, Running) then 1 else 0
    case Stops => if e == StateChanged(n, Stopped) || (e == StateChanged(n, Initializing) && On(p)) then 1 else 0
  }

  function ToldFrom(p: Phase, events: seq<Event>, n: string, kind: Kind): nat {
    if events == [] then 0
    else
      var front := events[..|events| - 1];
      ToldFrom(p, front, n, kind) + OfEvent(HeardAll(p, front, n), events[|events| - 1], n, kind)
  }

  function Told(events: seq<Event>, n: string, kind: Kind): nat {
    ToldFrom(Off, events, n, kind)
  }

  lemma {:induction false} ToldMore(p: Phase, events: seq<Event>, more: seq<Event>, n: string, kind: Kind)
    ensures ToldFrom(p, events + more, n, kind)
         == ToldFrom(p, events, n, kind) + ToldFrom(HeardAll(p, events, n), more, n, kind)
  {
    if more == [] {
      assert events + more == events;
    } else {
      var front := more[..|more| - 1];
      ToldMore(p, events, front, n, kind);
      HeardMore(p, events, front, n);
      assert (events + more)[..|events + more| - 1] == events + front;
    }
  }

  lemma {:induction false} ToldOthers(p: Phase, more: seq<Event>, name: string, n: string, kind: Kind)
    requires name != n && forall k :: 0 <= k < |more| ==> more[k].name == name
    ensures ToldFrom(p, more, n, kind) == 0
  {
    if more != [] {
      ToldOthers(p, more[..|more| - 1], name, n, kind);
    }
  }

  lemma ToldOne(p: Phase, a: Event, kind: Kind)
    ensures ToldFrom(p, [a], a.name, kind) == OfEvent(p, a, a.name, kind)
  {
    assert [a][..0] == [];
  }

  lemma ToldTwo(p: Phase, a: Event, b: Event, kind: Kind)
    requires a.name == b.name
    ensures ToldFrom(p, [a, b], a.name, kind) == OfEvent(p, a, a.name, kind) + OfEvent(Heard(p, a), b, a.name, kind)
  {
    assert [a, b][..1] == [a];
    ToldOne(p, a, kind);
    HeardOne(p, a);
  }

  lemma ToldThree(p: Phase, a: Event, b: Event, c: Event, kind: Kind)
    requires a.name == b.name == c.name
    ensures ToldFrom(p, [a, b, c], a.name, kind)
         == OfEvent(p, a, a.name, kind) + OfEvent(Heard(p, a), b, a.name, kind)
            + OfEvent(Heard(Heard(p, a), b), c, a.name, kind)
  {
    assert [a, b, c][..2] == [a, b];
    ToldTwo(p, a, b, kind);
    HeardTwo(p, a, b);
  }

  lemma ToldFour(p: Phase, a: Event, b: Event, c: Event, d: Event, kind: Kind)
    requires a.name == b.name == c.name == d.name
    ensures ToldFrom(p, [a, b, c, d], a.name, kind)
         == OfEvent(p, a, a.name, kind) + OfEvent(Heard(p, a), b, a.name, kind)
            + OfEvent(Heard(Heard(p, a), b), c, a.name, kind) + OfEvent(Heard(Heard(Heard(p, a), b), c), d, a.name, kind)
  {
    assert [a, b, c, d][..3] == [a, b, c];
    ToldThree(p, a, b, c, kind);
    HeardThree(p, a, b, c);
  }

  /** The calls on a new instance, counted. */
  function Newcomer(initOk: bool, kind: Kind): nat {
    match kind
    case Inits => 1
    case GoodInits => if initOk then 1 else 0
    case Starts => if initOk then 1 else 0
    case Stops => 0
  }

  lemma CallsTold(initOk: bool, startOk: bool, kind: Kind)
    ensures OfCalls(CallsMade(initOk, startOk), kind) == Newcomer(initOk, kind)
  {
    assert [Init(false)][..0] == [];
    assert [Init(true), Start(startOk)][..1] == [Init(true)] && [Init(true)][..0] == [];
  }

  lemma LoadTold(name: string, o: LoadOutcome, kind: Kind)
    ensures ToldFrom(Off, LoadEvents(name, o), name, kind) == if o.licensed then Newcomer(o.initOk, kind) else 0
  {
    var init, run, err, fail :=
      StateChanged(name, Initializing), StateChanged(name, Running), ErrorRaised(name), StateChanged(name, Failed);
    ToldTwo(Off, init, err, kind);
    ToldTwo(Off, init, run, kind);
    ToldFour(Off, init, run, err, fail, kind);
  }

  lemma RestartTold(p: Phase, name: string, initOk: bool, startOk: bool, kind: Kind)
    requires On(p)
    ensures ToldFrom(p, RestartEvents(name, initOk, startOk), name, kind)
         == Newcomer(initOk, kind) + (if kind == Stops then 1 else 0)
  {
    var init, run, err := StateChanged(name, Initializing), StateChanged(name, Running), ErrorRaised(name);
    ToldTwo(p, init, err, kind);
    ToldTwo(p, init, run, kind);
    ToldThree(p, init, run, err, kind);
  }

  lemma StopTold(p: Phase, name: string, kind: Kind)
    ensures ToldFrom(p, [StateChanged(name, Stopping), StateChanged(name, Stopped)], name, kind) == if kind == Stops then 1 else 0
  {
    ToldTwo(p, StateChanged(name, Stopping), StateChanged(name, Stopped), kind);
  }

  lemma ReportTold(p: Phase, name: string, kind: Kind)
    ensures ToldFrom(p, [StateChanged(name, Degraded)], name, kind) == 0
    ensures ToldFrom(p, [StateChanged(name, Failed), ErrorRaised(name)], name, kind) == 0
  {
    ToldOne(p, StateChanged(name, Degraded), kind);
    ToldTwo(p, StateChanged(name, Failed), ErrorRaised(name), kind);
  }

  // ---- Instances ----

  lemma MadeSnoc(instances: seq<Instance>, i: Instance, n: string, kind: Kind)
    ensures Made(instances + [i], n, kind) == Made(instances, n, kind) + OfInstance(i, n, kind)
  {
    assert (instances + [i])[..|instances + [i]| - 1] == instances;
  }

  lemma OfCallsStop(calls: seq<Call>, kind: Kind)
    ensures OfCalls(calls + [Stop], kind) == OfCalls(calls, kind) + (if kind == Stops then 1 else 0)
  {
    assert (calls + [Stop])[..|calls + [Stop]| - 1] == calls;
  }

  lemma {:induction false} MadeAfterStop(instances: seq<Instance>, i: nat, n: string, kind: Kind)
    requires i < |instances|
    ensures Made(AfterStop(instances, i), n, kind)
         == Made(instances, n, kind) + (if instances[i].name == n && kind == Stops then 1 else 0)
  {
    var last := |instances| - 1;
    var after := AfterStop(instances, i);
    if i < last {
      MadeAfterStop(instances[..last], i, n, kind);
      assert after[..last] == AfterStop(instances[..last], i);
    } else {
      assert after[..last] == instances[..last];
      OfCallsStop(instances[i].calls, kind);
    }
  }

  lemma LoadMade(instances: seq<Instance>, name: string, o: LoadOutcome, n: string, kind: Kind)
    ensures Made(instances + [Instance(name, if o.licensed then CallsMade(o.initOk, o.startOk) else [])], n, kind)
         == Made(instances, n, kind) + (if name == n && o.licensed then Newcomer(o.initOk, kind) else 0)
  {
    MadeSnoc(instances, Instance(name, if o.licensed then CallsMade(o.initOk, o.startOk) else []), n, kind);
    CallsTold(o.initOk, o.startOk, kind);
  }

  lemma RestartMade(instances: seq<Instance>, i: nat, name: string, initOk: bool, startOk: bool, n: string, kind: Kind)
    requires i < |instances| && instances[i].name == name
    ensures Made(AfterStop(instances, i) + [Instance(name, CallsMade(initOk, startOk))], n, kind)
         == Made(instances, n, kind) + (if name == n then Newcomer(initOk, kind) + (if kind == Stops then 1 else 0) else 0)
  {
    MadeAfterStop(instances, i, n, kind);
    MadeSnoc(AfterStop(instances, i), Instance(name, CallsMade(initOk, startOk)), n, kind);
    CallsTold(initOk, startOk, kind);
  }

  // ---- Each step adds the same on both sides ----

  /** The calls made on a module's instances are those its announcements stand for. */
  predicate Balanced(s: Sup, n: string, kind: Kind) {
    Made(s.instances, n, kind) == Told(s.events, n, kind)
  }

  lemma ToldPublished(s: Sup, name: string, more: seq<Event>, n: string, kind: Kind)
    requires n in s.hosted && forall k :: 0 <= k < |more| ==> more[k].name == name
    ensures Told(Published(s.hosted, s.events, name, more), n, kind)
         == Told(s.events, n, kind) + (if name == n then ToldFrom(PhaseOf(s.events, n), more, n, kind) else 0)
  {
    ToldMore(Off, s.events, more, n, kind);
    if name != n {
      ToldOthers(PhaseOf(s.events, n), more, name, n, kind);
    }
  }

  lemma LoadAppends(s: Sup, name: string, o: LoadOutcome)
    requires name !in s.loaded && name in s.registry
    ensures
      var t := Load(s, name, o);
      && t.instances == s.instances + [Instance(name, if o.licensed then CallsMade(o.initOk, o.startOk) else [])]
      && t.events == Published(s.hosted, s.events, name, LoadEvents(name, o))
  {
  }

  lemma RestartAppends(s: Sup, name: string, initOk: bool, startOk: bool)
    requires name in s.loaded
    ensures
      var t := Fire(s, name, initOk, startOk);
      && t.instances == AfterStop(s.instances, s.loaded[name].instance) + [Instance(name, CallsMade(initOk, startOk))]
      && t.events == Published(s.hosted, s.events, name, RestartEvents(name, initOk, startOk))
  {
  }

  lemma {:induction false} LoadBalanced(s: Sup, name: string, o: LoadOutcome, n: string, kind: Kind)
    requires Balanced(s, n, kind) && Follows(s.events, s.loaded.Keys, n) && n in s.hosted
    ensures Balanced(Load(s, name, o), n, kind)
  {
    if name !in s.loaded && name in s.registry {
      LoadMade(s.instances, name, o, n, kind);
      ToldPublished(s, name, LoadEvents(name, o), n, kind);
      LoadTold(name, o, kind);
      LoadAppends(s, name, o);
    }
  }

  lemma {:induction false} StopBalanced(s: Sup, name: string, n: string, kind: Kind)
    requires Balanced(s, n, kind) && n in s.hosted && RecordInv(s.loaded, s.instances)
    ensures Balanced(StopLocked(s, name), n, kind)
  {
    if name in s.loaded {
      MadeAfterStop(s.instances, s.loaded[name].instance, n, kind);
      ToldPublished(s, name, [StateChanged(name, Stopping), StateChanged(name, Stopped)], n, kind);
      StopTold(PhaseOf(s.events, n), name, kind);
    }
  }

  lemma ReportAnnounces(s: Sup, name: string, frac: real)
    ensures
      var t := ReportFailure(s, name, frac);
      && t.instances == s.instances
      && (|| t.events == s.events
          || t.events == Published(s.hosted, s.events, name, [StateChanged(name, Degraded)])
          || t.events == Published(s.hosted, s.events, name, [StateChanged(name, Failed), ErrorRaised(name)]))
  {
  }

  lemma {:induction false} ReportsToldNothing(s: Sup, name: string, n: string, kind: Kind)
    requires n in s.hosted
    ensures Told(Published(s.hosted, s.events, name, [StateChanged(name, Degraded)]), n, kind) == Told(s.events, n, kind)
    ensures Told(Published(s.hosted, s.events, name, [StateChanged(name, Failed), ErrorRaised(name)]), n, kind)
         == Told(s.events, n, kind)
  {
    ToldPublished(s, name, [StateChanged(name, Degraded)], n, kind);
    ToldPublished(s, name, [StateChanged(name, Failed), ErrorRaised(name)], n, kind);
    if name == n {
      ReportTold(PhaseOf(s.events, n), name, kind);
    }
  }

  lemma {:induction false} ReportBalanced(s: Sup, name: string, frac: real, n: string, kind: Kind)
    requires Balanced(s, n, kind) && n in s.hosted
    ensures Balanced(ReportFailure(s, name, frac), n, kind)
  {
    ReportAnnounces(s, name, frac);
    ReportsToldNothing(s, name, n, kind);
  }

  lemma {:induction false} FireBalanced(s: Sup, name: string, initOk: bool, startOk: bool, n: string, kind: Kind)
    requires Balanced(s, n, kind) && Follows(s.events, s.loaded.Keys, n) && n in s.hosted && RecordInv(s.loaded, s.instances)
    ensures Balanced(Fire(s, name, initOk, startOk), n, kind)
  {
    if name in s.loaded {
      RestartMade(s.instances, s.loaded[name].instance, name, initOk, startOk, n, kind);
      RestartAppends(s, name, initOk, startOk);
      ToldPublished(s, name, RestartEvents(name, initOk, startOk), n, kind);
      if name == n {
        RestartTold(PhaseOf(s.events, n), name, initOk, startOk, kind);
      }
    }
  }

  lemma {:induction false} StopEachBalanced(s: Sup, names: seq<string>, n: string, kind: Kind)
    requires Balanced(s, n, kind) && n in s.hosted && Inv(s)
    ensures Balanced(StopEach(s, names), n, kind)
  {
    if names != [] {
      var front := names[..|names| - 1];
      StopEachBalanced(s, front, n, kind);
      StopEachFrame(s, front);
      StopEachKeepsInv(s, front);
      StopBalanced(StopEach(s, front), names[|names| - 1], n, kind);
    }
  }

  lemma {:induction false} StepBalanced(s: Sup, step: Step, n: string, kind: Kind)
    requires Balanced(s, n, kind) && Follows(s.events, s.loaded.Keys, n) && n in s.hosted && Inv(s)
    ensures Balanced(Take(s, step), n, kind)
  {
    match step
    case LoadStep(name, o) => LoadBalanced(s, name, o, n, kind);
    case UnloadStep(name, saveOk) => StopBalanced(s, name, n, kind);
    case LifeStopStep =>
    case StopAllStep => StopEachBalanced(s, Descending(s.loaded.Keys), n, kind);
    case ReportStep(name, frac) => ReportBalanced(s, name, frac, n, kind);
    case FireStep(name, initOk, startOk) => FireBalanced(s, name, initOk, startOk, n, kind);
    case InFlightStep(name, frac) => ReportBalanced(s.(reports := s.reports - multiset{name}), name, frac, n, kind);
    case AbandonStep(name) =>
  }

  /** In every run the calls made on a module's instances are exactly those its announcements stand for: no Init
      or Start unannounced, no Start without a successful Init, and one Stop for every Stopped and every restart
      of a loaded module. */
  lemma {:induction false} BooksBalance(s: Sup, steps: seq<Step>, n: string, kind: Kind)
    requires Initial(s) && Possible(s, steps) && n in s.hosted
    ensures Balanced(Run(s, steps), n, kind)
  {
    if steps != [] {
      var front := steps[..|steps| - 1];
      BooksBalance(s, front, n, kind);
      RunFollows(s, front, n);
      RunKeepsInv(s, front);
      RunKeepsConfig(s, front);
      StepBalanced(Run(s, front), steps[|steps| - 1], n, kind);
    }
  }
}
