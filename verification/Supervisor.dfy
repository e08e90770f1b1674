/** The supervisor object: its fields are updated in place, in the order the source updates them, and
    every locked section is proved to be one step of the model. */
module SupervisorObject {
  import opened Backoff
  import opened EnabledList
  import opened NameOrder
  import opened SupervisorModel
  import opened SupervisorInvariants
  import opened SupervisorLifecycle

  datatype LoadError = NoError | UnknownModule | LicenseDenied | InitFailed | StartFailed

  function LoadErrorOf(s: Sup, name: string, o: LoadOutcome): LoadError {
    if name in s.loaded then NoError
    else if name !in s.registry then UnknownModule
    else if !o.licensed then LicenseDenied
    else if !o.initOk then InitFailed
    else if !o.startOk then StartFailed
    else NoError
  }

  lemma NoErrorMeansLoaded(s: Sup, name: string, o: LoadOutcome)
    ensures LoadErrorOf(s, name, o) == NoError <==> name in SupervisorModel.Load(s, name, o).loaded
  {
  }

  class Supervisor {
    const registry: set<string>
    const hosted: set<string>
    const maxRestart: int
    const backoff: BackoffConfig
    var loaded: map<string, Entry>
    var enabled: seq<string>
    var disk: Disk
    var lifeDone: bool
    var loads: nat
    var instances: seq<Instance>
    var contexts: seq<Context>
    var events: seq<Event>
    var timers: multiset<string>
    var reports: multiset<string>

    function View(): Sup
      reads this
    {
      Sup(registry, hosted, maxRestart, backoff, loaded, enabled, disk, lifeDone, loads,
          instances, contexts, events, timers, reports)
    }

    /** The recorded instances and contexts exist. (That and more follows from the invariants of the
        model, which every step keeps; the methods need only this much.) */
    ghost predicate Valid()
      reads this
    {
      forall n :: n in loaded ==> loaded[n].instance < |instances| && loaded[n].ctx < |contexts|
    }

    constructor (registry: set<string>, hosted: set<string>, maxRestarts: int, backoff: BackoffConfig, disk: Disk)
      ensures View() == New(registry, hosted, maxRestarts, backoff, disk)
      ensures Valid() && Initial(View())
    {
      this.registry, this.hosted, this.backoff := registry, hosted, backoff;
      this.maxRestart := if maxRestarts == 0 then 5 else maxRestarts;
      loaded, enabled, this.disk, lifeDone, loads := map[], [], disk, false, 0;
      instances, contexts, events := [], [], [];
      timers, reports := multiset{}, multiset{};
    }

    /** Hand an event to the module's host, if it has one. */
    method PublishEvent(e: Event)
      modifies this`events
      ensures events == Published(hosted, old(events), e.name, [e])
    {
      if e.name in hosted {
        events := events + [e];
      }
    }

    /** Create an instance and leave every call on it to be recorded. */
    method Instantiate(name: string) returns (i: nat)
      modifies this`instances
      ensures i == |old(instances)| && instances == old(instances) + [Instance(name, [])]
    {
      i := |instances|;
      instances := instances + [Instance(name, [])];
    }

    /** Init on the instance just created. */
    method CallInit(name: string, m: nat, ok: bool)
      requires m + 1 == |instances| && instances[m] == Instance(name, [])
      modifies this`instances
      ensures instances == old(instances)[..m] + [Instance(name, [Init(ok)])]
    {
      instances := instances[m := Instance(name, instances[m].calls + [Init(ok)])];
      assert instances[m].calls == [Init(ok)];
    }

    /** Start on the instance just initialized. */
    method CallStart(name: string, m: nat, ok: bool)
      requires m + 1 == |instances| && instances[m] == Instance(name, [Init(true)])
      modifies this`instances
      ensures instances == old(instances)[..m] + [Instance(name, [Init(true), Start(ok)])]
    {
      instances := instances[m := Instance(name, instances[m].calls + [Start(ok)])];
      assert instances[m].calls == [Init(true), Start(ok)];
    }

    method CallStop(i: nat)
      requires i < |instances|
      modifies this`instances
      ensures instances == AfterStop(old(instances), i)
    {
      instances := instances[i := instances[i].(calls := instances[i].calls + [Stop])];
    }

    method CreateContext(name: string) returns (c: nat)
      modifies this`contexts
      ensures c == |old(contexts)| && contexts == old(contexts) + [Context(name, false)]
    {
      c := |contexts|;
      contexts := contexts + [Context(name, false)];
    }

    method CancelContext(c: nat)
      requires c < |contexts|
      modifies this`contexts
      ensures contexts == AfterCancel(old(contexts), c)
    {
      contexts := contexts[c := contexts[c].(cancelled := true)];
    }

    method Save(ok: bool)
      modifies this`disk
      ensures disk == Persisted(old(disk), enabled, ok)
    {
      if ok {
        disk := Holds(enabled);
      }
    }

    method AddToEnabled(name: string)
      modifies this`enabled
      ensures enabled == Add(old(enabled), name)
    {
      enabled := AddTo(enabled, name);
    }

    method RemoveFromEnabled(name: string)
      modifies this`enabled
      ensures enabled == Without(old(enabled), name)
    {
      var backing := new string[|enabled|](i requires 0 <= i < |enabled| reads this => enabled[i]);
      assert backing[..] == enabled;
      var kept := CompactInPlace(backing, name);
      enabled := backing[..kept];
    }

    /** Create and initialize an instance for a load, if the licence allows it. */
    method Prepare(name: string, o: LoadOutcome) returns (err: LoadError, m: nat)
      modifies this`instances, this`events
      ensures m == |old(instances)|
      ensures instances == old(instances) + [Instance(name, if o.licensed then [Init(o.initOk)] else [])]
      ensures events == Published(hosted, old(events), name,
                          if !o.licensed then []
                          else if !o.initOk then [StateChanged(name, Initializing), ErrorRaised(name)]
                          else [StateChanged(name, Initializing)])
      ensures err == if !o.licensed then LicenseDenied else if !o.initOk then InitFailed else NoError
    {
      m := Instantiate(name);
      if !o.licensed {
        return LicenseDenied, m;
      }
      PublishEvent(StateChanged(name, Initializing));
      CallInit(name, m, o.initOk);
      if !o.initOk {
        PublishEvent(ErrorRaised(name));
        return InitFailed, m;
      }
      return NoError, m;
    }

    /** Start an initialized instance under a context of its own. */
    method Launch(name: string, m: nat, startOk: bool) returns (ctx: nat)
      requires m + 1 == |instances| && instances[m] == Instance(name, [Init(true)])
      modifies this`instances, this`contexts, this`events
      ensures ctx == |old(contexts)|
      ensures instances == old(instances)[..m] + [Instance(name, [Init(true), Start(startOk)])]
      ensures contexts == old(contexts) + [Context(name, !startOk)]
      ensures events == Published(hosted, old(events), name,
                          if startOk then [StateChanged(name, Running)]
                          else [StateChanged(name, Running), ErrorRaised(name), StateChanged(name, Failed)])
    {
      ctx := CreateContext(name);
      PublishEvent(StateChanged(name, Running));
      CallStart(name, m, startOk);
      if !startOk {
        CancelContext(ctx);
        PublishEvent(ErrorRaised(name));
        PublishEvent(StateChanged(name, Failed));
      }
    }

    /** Load a module: a no-op when loaded, an error when unknown, unlicensed or failing to start. */
    method Load(name: string, o: LoadOutcome) returns (err: LoadError)
      requires Valid()
      modifies this
      ensures View() == SupervisorModel.Load(old(View()), name, o)
      ensures Valid()
      ensures err == LoadErrorOf(old(View()), name, o) && (err == NoError <==> name in loaded)
    {
      NoErrorMeansLoaded(View(), name, o);
      if name in loaded {
        return NoError;
      }
      if name !in registry {
        return UnknownModule;
      }
      var m, ctx;
      err, m, ctx := BringUp(name, o);
      if err == NoError {
        Record(name, m, ctx, o.saveOk);
      }
    }

    /** Everything a load does up to a started instance. */
    method BringUp(name: string, o: LoadOutcome) returns (err: LoadError, m: nat, ctx: nat)
      modifies this`instances, this`contexts, this`events
      ensures m == |old(instances)| && ctx == |old(contexts)|
      ensures instances == old(instances) + [Instance(name, if o.licensed then CallsMade(o.initOk, o.startOk) else [])]
      ensures contexts == old(contexts) + (if o.licensed && o.initOk then [Context(name, !o.startOk)] else [])
      ensures events == Published(hosted, old(events), name, LoadEvents(name, o))
      ensures err == if !o.licensed then LicenseDenied else if !o.initOk then InitFailed
                     else if !o.startOk then StartFailed else NoError
    {
      err, m := Prepare(name, o);
      ctx := |contexts|;
      if err == NoError {
        ctx := Launch(name, m, o.startOk);
        if !o.startOk {
          err := StartFailed;
        }
      }
    }

    /** Record a started module and remember it as enabled. */
    method Record(name: string, m: nat, ctx: nat, saveOk: bool)
      modifies this`loaded, this`loads, this`enabled, this`disk
      ensures loaded == old(loaded)[name := Entry(m, Running, 0, ctx, [], old(loads))]
      ensures loads == old(loads) + 1
      ensures enabled == Add(old(enabled), name)
      ensures disk == Persisted(old(disk), enabled, saveOk)
    {
      loaded := loaded[name := Entry(m, Running, 0, ctx, [], loads)];
      loads := loads + 1;
      AddToEnabled(name);
      Save(saveOk);
    }

    method StopLocked(name: string)
      requires Valid()
      modifies this
      ensures View() == SupervisorModel.StopLocked(old(View()), name)
      ensures Valid()
    {
      ghost var s := View();
      if name !in loaded {
        return;
      }
      var e := loaded[name];
      PublishEvent(StateChanged(name, Stopping));
      CallStop(e.instance);
      CancelContext(e.ctx);
      PublishEvent(StateChanged(name, Stopped));
      loaded := loaded - {name};
      assert events == Published(hosted, s.events, name, [StateChanged(name, Stopping), StateChanged(name, Stopped)]);
    }

    method Unload(name: string, saveOk: bool)
      requires Valid()
      modifies this
      ensures View() == SupervisorModel.Unload(old(View()), name, saveOk)
      ensures Valid()
    {
      if name !in loaded {
        return;
      }
      StopLocked(name);
      RemoveFromEnabled(name);
      Save(saveOk);
    }

    /** Cancel the lifetime context, then stop every module, largest name first. */
    method Shutdown()
      requires Valid()
      modifies this
      ensures View() == StopAll(LifeStop(old(View())))
      ensures Valid() && loaded == map[]
      ensures enabled == old(enabled) && disk == old(disk)
    {
      ShutdownUnloadsAll(LifeStop(View()));
      lifeDone := true;
      var names := SortNames(loaded.Keys);
      ListingUnique(names, Ascending(loaded.Keys), loaded.Keys);
      StopFromLast(names);
    }

    method StopFromLast(names: seq<string>)
      requires Valid()
      modifies this
      ensures View() == StopEach(old(View()), Reverse(names))
      ensures Valid()
    {
      ghost var s, order := View(), Reverse(names);
      assert |order| == |names| && forall k :: 0 <= k < |names| ==> order[|names| - 1 - k] == names[k];
      var i := |names|;
      while i > 0
        invariant 0 <= i <= |names|
        invariant View() == StopEach(s, order[..|names| - i])
        invariant Valid()
      {
        i := i - 1;
        StopNext(names[i], s, order, |names| - i - 1);
      }
      assert order[..|names|] == order;
    }

    method StopNext(name: string, ghost s: Sup, ghost order: seq<string>, ghost k: nat)
      requires Valid() && k < |order| && order[k] == name && View() == StopEach(s, order[..k])
      modifies this
      ensures View() == StopEach(s, order[..k + 1])
      ensures Valid()
    {
      StopEachSnoc(s, order, k);
      StopLocked(name);
    }

    /** Count a failure; park the module at the limit, otherwise schedule a restart. */
    method ReportFailure(name: string, frac: real)
      requires Valid()
      modifies this
      ensures View() == SupervisorModel.ReportFailure(old(View()), name, frac)
      ensures Valid()
    {
      if name !in loaded {
        return;
      }
      var ms := loaded[name];
      ms := ms.(restartAttempt := ms.restartAttempt + 1);
      if ms.restartAttempt >= maxRestart {
        Park(name, ms.(state := Failed));
        return;
      }
      var delay := BackoffFor(backoff, ms.restartAttempt - 1, frac);
      Await(name, ms.(state := Degraded, delays := ms.delays + [delay]));
    }

    method Park(name: string, ms: Entry)
      modifies this`loaded, this`events
      ensures loaded == old(loaded)[name := ms]
      ensures events == Published(hosted, old(events), name, [StateChanged(name, Failed), ErrorRaised(name)])
    {
      loaded := loaded[name := ms];
      PublishEvent(StateChanged(name, Failed));
      PublishEvent(ErrorRaised(name));
    }

    method Await(name: string, ms: Entry)
      modifies this`loaded, this`events, this`timers
      ensures loaded == old(loaded)[name := ms]
      ensures events == Published(hosted, old(events), name, [StateChanged(name, Degraded)])
      ensures timers == old(timers) + multiset{name}
    {
      loaded := loaded[name := ms];
      PublishEvent(StateChanged(name, Degraded));
      timers := timers + multiset{name};
    }

    /** A restart timer fires: if the module is still loaded, restart it. */
    method FireTimer(name: string, initOk: bool, startOk: bool)
      requires Valid() && name in timers
      modifies this
      ensures View() == Fire(old(View()), name, initOk, startOk)
      ensures Valid()
    {
      timers := timers - multiset{name};
      if name in loaded {
        RestartModule(name, initOk, startOk);
      }
    }

    /** Create, initialize and start a replacement instance, announcing each stage. */
    method Replace(name: string, initOk: bool, startOk: bool) returns (ok: bool, m: nat, ctx: nat)
      modifies this`instances, this`contexts, this`events
      ensures instances == old(instances) + [Instance(name, CallsMade(initOk, startOk))]
      ensures contexts == old(contexts) + [Context(name, !ok)]
      ensures events == Published(hosted, old(events), name, RestartEvents(name, initOk, startOk))
      ensures ok == (initOk && startOk) && m == |old(instances)| && ctx == |old(contexts)|
    {
      m := Instantiate(name);
      ctx := CreateContext(name);
      PublishEvent(StateChanged(name, Initializing));
      CallInit(name, m, initOk);
      if !initOk {
        CancelContext(ctx);
        PublishEvent(ErrorRaised(name));
        return false, m, ctx;
      }
      PublishEvent(StateChanged(name, Running));
      CallStart(name, m, startOk);
      if !startOk {
        CancelContext(ctx);
        PublishEvent(ErrorRaised(name));
        return false, m, ctx;
      }
      return true, m, ctx;
    }

    /** Stop the old instance and start a new one; if that fails leave a failure report to be made
        once the lock is released. */
    method RestartModule(name: string, initOk: bool, startOk: bool)
      requires Valid() && name in loaded
      modifies this
      ensures View() == Restart(old(View()), name, initOk, startOk)
      ensures Valid()
    {
      var ms := loaded[name];
      CallStop(ms.instance);
      CancelContext(ms.ctx);
      var ok, m, ctx := Replace(name, initOk, startOk);
      if ok {
        loaded := loaded[name := ms.(instance := m, state := Running, ctx := ctx)];
      } else {
        reports := reports + multiset{name};
      }
    }

    /** The report a failed restart makes after releasing the lock. */
    method ReportFailedRestart(name: string, frac: real)
      requires Valid() && name in reports
      modifies this
      ensures View() == InFlightReport(old(View()), name, frac)
      ensures Valid()
    {
      reports := reports - multiset{name};
      ReportFailure(name, frac);
    }

    /** A waiting restart gives up because the lifetime context is cancelled. */
    method AbandonTimer(name: string)
      requires Valid() && name in timers && lifeDone
      modifies this`timers
      ensures View() == Abandon(old(View()), name)
    {
      timers := timers - multiset{name};
    }

    /** Adopt the enabled list on disk and load each module on it. */
    method StartEnabledModules(outcome: nat -> LoadOutcome) returns (ok: bool)
      requires Valid()
      modifies this
      ensures View() == StartEnabled(old(View()), outcome)
      ensures Valid()
      ensures ok <==> !old(disk).Unreadable?
    {
      match ReadState(disk)
      case None =>
        return false;
      case Some(list) =>
        enabled := list;
        ghost var s := View();
        var i := 0;
        while i < |list|
          invariant 0 <= i <= |list|
          invariant View() == LoadEach(s, list[..i], outcome)
          invariant Valid()
        {
          LoadEachSnoc(s, list, i, outcome);
          var err := Load(list[i], outcome(i));
          i := i + 1;
        }
        assert list[..i] == list;
        return true;
    }
  }
}
