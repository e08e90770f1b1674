/** Shutting down, starting up again, and what the enabled list remembers in between. */
module SupervisorLifecycle {
  import opened Common
  import opened EnabledList
  import opened NameOrder
  import opened SupervisorModel
  import opened SupervisorInvariants
  import opened SupervisorRuns

  predicate Succeeds(o: LoadOutcome) {
    o.licensed && o.initOk && o.startOk
  }

  // ---- Shutdown ----

  /** Shutting down stops everything: nothing loaded, nobody live, every context cancelled; the
      enabled list, in memory and on disk, is as it was. */
  lemma {:induction false} ShutdownStopsAll(s: Sup)
    requires Inv(s)
    ensures
      var t := StopAll(LifeStop(s));
      && t.loaded == map[]
      && (forall i :: 0 <= i < |t.instances| ==> !Live(t.instances[i].calls))
      && (forall c :: 0 <= c < |t.contexts| ==> t.contexts[c].cancelled)
      && t.enabled == s.enabled && t.disk == s.disk
  {
    var u := LifeStop(s);
    StopEachKeepsInv(u, Descending(u.loaded.Keys));
    ShutdownUnloadsAll(u);
    var t := StopAll(u);
    assert LiveInv(t.loaded, t.instances) && ContextInv(t.loaded, t.contexts);
  }

  /** Shutdown is final: whatever stale timers and reports still do, without a new load nothing is loaded
      again and no instance is created or called. */
  lemma {:induction false} ShutdownIsFinal(s: Sup, steps: seq<Step>)
    requires s.loaded == map[]
    requires forall k :: 0 <= k < |steps| ==> !steps[k].LoadStep?
    ensures
      var t := Run(s, steps);
      t.loaded == map[] && t.instances == s.instances && t.contexts == s.contexts && t.events == s.events
      && t.enabled == s.enabled && t.disk == s.disk
  {
    if steps != [] {
      var front, last := steps[..|steps| - 1], steps[|steps| - 1];
      ShutdownIsFinal(s, front);
      if last.StopAllStep? {
        NobodyToStop(Run(s, front), Descending(Run(s, front).loaded.Keys));
      }
    }
  }

  lemma {:induction false} NobodyToStop(s: Sup, names: seq<string>)
    requires s.loaded == map[]
    ensures StopEach(s, names) == s
  {
    if names != [] {
      NobodyToStop(s, names[..|names| - 1]);
    }
  }

  lemma ShutdownUnloadsAll(s: Sup)
    ensures StopAll(s).loaded == map[] && StopAll(s).enabled == s.enabled && StopAll(s).disk == s.disk
  {
    StopEachFrame(s, Descending(s.loaded.Keys));
    assert StopAll(s).loaded.Keys == {};
  }

  lemma StopEachSnoc(s: Sup, names: seq<string>, k: nat)
    requires k < |names|
    ensures StopEach(s, names[..k + 1]) == StopLocked(StopEach(s, names[..k]), names[k])
  {
    assert names[..k + 1][..k] == names[..k];
  }

  /** The events of stopping the given modules in the given order. */
  function StopEvents(names: seq<string>, hosted: set<string>): seq<Event> {
    if names == [] then []
    else
      var n := names[|names| - 1];
      StopEvents(names[..|names| - 1], hosted)
      + (if n in hosted then [StateChanged(n, Stopping), StateChanged(n, Stopped)] else [])
  }

  lemma {:induction false} StopEachEvents(s: Sup, names: seq<string>)
    requires NoDuplicates(names) && forall n :: n in names ==> n in s.loaded
    ensures StopEach(s, names).events == s.events + StopEvents(names, s.hosted)
  {
    if names != [] {
      var front, last := names[..|names| - 1], names[|names| - 1];
      StopEachEvents(s, front);
      StopEachFrame(s, front);
      assert last !in front && last in s.loaded;
    }
  }

  /** Shutdown announces the modules one after the other from the largest name to the smallest. */
  lemma ShutdownOrder(s: Sup)
    ensures StopAll(s).events == s.events + StopEvents(Descending(s.loaded.Keys), s.hosted)
  {
    var names := Descending(s.loaded.Keys);
    forall i, j | 0 <= i < j < |names|
      ensures names[i] != names[j]
    {
      LessIrreflexive(names[i]);
    }
    StopEachEvents(s, names);
  }

  /** Later loads come first in `names`. */
  predicate ReverseLoadOrder(loaded: map<string, Entry>, names: seq<string>)
    requires forall i :: 0 <= i < |names| ==> names[i] in loaded
  {
    forall i, j :: 0 <= i < j < |names| ==> loaded[names[j]].loadNo < loaded[names[i]].loadNo
  }

  predicate LoadedInNameOrder(loaded: map<string, Entry>) {
    forall a, b :: a in loaded && b in loaded && Less(a, b) ==> loaded[a].loadNo < loaded[b].loadNo
  }

  lemma DescendingPositions(keys: set<string>, a: string, b: string) returns (i: nat, j: nat)
    requires a in keys && b in keys && Less(a, b)
    ensures j < i < |Descending(keys)| && Descending(keys)[i] == a && Descending(keys)[j] == b
  {
    var names := Descending(keys);
    assert a in names && b in names;
    i :| 0 <= i < |names| && names[i] == a;
    j :| 0 <= j < |names| && names[j] == b;
    LessIrreflexive(a);
    LessAsymmetric(a, b);
  }

  /** The documented reverse load order is what happens exactly when the modules were loaded in
      ascending order of their names. */
  lemma ReverseLoadOrderIff(loaded: map<string, Entry>)
    ensures ReverseLoadOrder(loaded, Descending(loaded.Keys)) <==> LoadedInNameOrder(loaded)
  {
    var names := Descending(loaded.Keys);
    forall i | 0 <= i < |names|
      ensures names[i] in loaded
    {
      assert names[i] in names;
    }
    if ReverseLoadOrder(loaded, names) {
      forall a, b | a in loaded && b in loaded && Less(a, b)
        ensures loaded[a].loadNo < loaded[b].loadNo
      {
        var i, j := DescendingPositions(loaded.Keys, a, b);
      }
    }
  }

  lemma TwoLoads(s: Sup, first: string, second: string, o: LoadOutcome)
    requires Initial(s) && first in s.registry && second in s.registry && first != second && Succeeds(o)
    ensures
      var t := Load(Load(s, first, o), second, o);
      && t.loaded.Keys == {first, second}
      && t.loaded[first].loadNo < t.loaded[second].loadNo
  {
  }

  /** A run that shows the documented order fail: load "b", then "a"; shutdown stops "b" first. */
  lemma ReverseLoadOrderFails(s: Sup)
    requires Initial(s) && {"a", "b"} <= s.registry
    ensures
      var ok := LoadOutcome(true, true, true, true);
      var t := Load(Load(s, "b", ok), "a", ok);
      && t == Run(s, [LoadStep("b", ok), LoadStep("a", ok)])
      && !ReverseLoadOrder(t.loaded, Descending(t.loaded.Keys))
  {
    var ok := LoadOutcome(true, true, true, true);
    var first, second := LoadStep("b", ok), LoadStep("a", ok);
    assert [first, second][..1] == [first] && [first][..0] == [];
    assert Run(s, []) == s;
    assert Run(s, [first]) == Load(s, "b", ok);
    TwoLoads(s, "b", "a", ok);
    assert Less("a", "b");
    ReverseLoadOrderIff(Load(Load(s, "b", ok), "a", ok).loaded);
  }

  // ---- Starting enabled modules ----

  /** Reading the state file: a missing file is an empty list, an unreadable one an error. */
  function ReadState(disk: Disk): Option<seq<string>> {
    match disk
    case Missing => Some([])
    case Unreadable => None
    case Holds(list) => Some(list)
  }

  function LoadEach(s: Sup, names: seq<string>, outcome: nat -> LoadOutcome): Sup {
    if names == [] then s
    else Load(LoadEach(s, names[..|names| - 1], outcome), names[|names| - 1], outcome(|names| - 1))
  }

  lemma LoadEachSnoc(s: Sup, names: seq<string>, k: nat, outcome: nat -> LoadOutcome)
    requires k < |names|
    ensures LoadEach(s, names[..k + 1], outcome) == Load(LoadEach(s, names[..k], outcome), names[k], outcome(k))
  {
    assert names[..k + 1][..k] == names[..k];
  }

  /** Adopt the list on disk, then try to load each name on it; failures are only logged. */
  function StartEnabled(s: Sup, outcome: nat -> LoadOutcome): Sup {
    match ReadState(s.disk)
    case None => s
    case Some(list) => LoadEach(s.(enabled := list), list, outcome)
  }

  /** Without a state file nothing is loaded and the list is empty; with one that cannot be read nothing
      changes at all. */
  lemma StartWithoutList(s: Sup, outcome: nat -> LoadOutcome)
    ensures s.disk == Missing ==> StartEnabled(s, outcome) == s.(enabled := [])
    ensures s.disk == Unreadable ==> StartEnabled(s, outcome) == s
  {
  }

  function LoadSteps(names: seq<string>, outcome: nat -> LoadOutcome): seq<Step> {
    seq(|names|, i requires 0 <= i < |names| => LoadStep(names[i], outcome(i)))
  }

  /** Starting the enabled modules is a run of ordinary loads, so what holds over all runs holds here and
      whatever is interleaved. */
  lemma {:induction false} LoadEachIsRun(s: Sup, names: seq<string>, outcome: nat -> LoadOutcome)
    ensures LoadEach(s, names, outcome) == Run(s, LoadSteps(names, outcome))
    ensures Possible(s, LoadSteps(names, outcome))
  {
    if names != [] {
      var front := names[..|names| - 1];
      LoadEachIsRun(s, front, outcome);
      var steps := LoadSteps(names, outcome);
      assert steps[..|steps| - 1] == LoadSteps(front, outcome);
    }
  }

  /** Loading every name of the enabled list leaves that list as it is, in memory and on disk,
      whether or not the saves succeed, and loads the registered names if the loads succeed. */
  lemma {:induction false} LoadEachEffect(s: Sup, names: seq<string>, outcome: nat -> LoadOutcome)
    requires forall n :: n in names ==> n in s.enabled
    requires ReadState(s.disk) == Some(s.enabled)
    ensures
      var t := LoadEach(s, names, outcome);
      && t.enabled == s.enabled && ReadState(t.disk) == Some(s.enabled) && t.registry == s.registry
      && (forall n :: n in t.loaded ==> n in s.loaded || (n in s.registry && n in names))
      && ((forall k: nat :: Succeeds(outcome(k))) ==>
            forall n :: n in s.loaded || (n in s.registry && n in names) ==> n in t.loaded)
  {
    if names != [] {
      var front, last := names[..|names| - 1], names[|names| - 1];
      assert names == front + [last];
      LoadEachEffect(s, front, outcome);
      assert last in s.enabled;
    }
  }

  /** A fresh supervisor whose loads succeed ends up with exactly the registered enabled names. */
  lemma StartEnabledRestores(s: Sup, list: seq<string>, outcome: nat -> LoadOutcome)
    requires Initial(s) && ReadState(s.disk) == Some(list)
    requires forall k: nat :: Succeeds(outcome(k))
    ensures
      var t := StartEnabled(s, outcome);
      && t.loaded.Keys == (set n | n in list && n in s.registry)
      && t.enabled == list && ReadState(t.disk) == Some(list)
  {
    LoadEachEffect(s.(enabled := list), list, outcome);
    var t := StartEnabled(s, outcome);
    assert forall n :: n in t.loaded <==> n in list && n in s.registry;
  }

  // ---- The list on disk ----

  /** The file holds what is in memory. */
  predicate Synced(s: Sup) {
    ReadState(s.disk) == Some(s.enabled)
  }

  predicate SavesOk(steps: seq<Step>) {
    forall k :: 0 <= k < |steps| ==>
      (steps[k].LoadStep? ==> steps[k].outcome.saveOk) && (steps[k].UnloadStep? ==> steps[k].saveOk)
  }

  lemma StepKeepsSynced(s: Sup, step: Step)
    requires Synced(s) && SavesOk([step])
    ensures Synced(Take(s, step))
  {
    assert [step][0] == step;
    if step.StopAllStep? {
      StopEachFrame(s, Descending(s.loaded.Keys));
    }
  }

  lemma {:induction false} RunKeepsSynced(s: Sup, steps: seq<Step>)
    requires Synced(s) && SavesOk(steps)
    ensures Synced(Run(s, steps))
  {
    if steps != [] {
      RunKeepsSynced(s, steps[..|steps| - 1]);
      var last := steps[|steps| - 1];
      assert SavesOk([last]);
      StepKeepsSynced(Run(s, steps[..|steps| - 1]), last);
    }
  }

  /** Steps keep a duplicate-free enabled list duplicate-free. */
  lemma StepKeepsDistinct(s: Sup, step: Step)
    requires NoDuplicates(s.enabled)
    ensures NoDuplicates(Take(s, step).enabled)
  {
    match step
    case LoadStep(name, o) => AddThenWithout(s.enabled, name);
    case UnloadStep(name, saveOk) => WithoutKeepsDistinct(s.enabled, name);
    case StopAllStep => StopEachFrame(s, Descending(s.loaded.Keys));
    case _ =>
  }

  lemma {:induction false} RunKeepsDistinct(s: Sup, steps: seq<Step>)
    requires NoDuplicates(s.enabled)
    ensures NoDuplicates(Run(s, steps).enabled)
  {
    if steps != [] {
      RunKeepsDistinct(s, steps[..|steps| - 1]);
      StepKeepsDistinct(Run(s, steps[..|steps| - 1]), steps[|steps| - 1]);
    }
  }

  /** A daemon restart brings back the modules: after any run with successful saves that began from the
      list on disk, and a shutdown, a fresh supervisor loads exactly the registered enabled names,
      which include every module loaded before, and the list on disk stays the same. */
  lemma {:induction false} RestartBringsBack(s: Sup, list: seq<string>, steps: seq<Step>, reborn: Sup, outcome: nat -> LoadOutcome)
    requires Initial(s) && ReadState(s.disk) == Some(list) && s.enabled == list
    requires Possible(s, steps) && SavesOk(steps)
    requires Initial(reborn) && reborn.registry == s.registry
    requires reborn.disk == StopAll(LifeStop(Run(s, steps))).disk
    requires forall k: nat :: Succeeds(outcome(k))
    ensures
      var t := Run(s, steps);
      var down := StopAll(LifeStop(t));
      var back := StartEnabled(reborn, outcome);
      && down.enabled == t.enabled && down.disk == t.disk
      && back.loaded.Keys == (set n | n in t.enabled && n in s.registry)
      && t.loaded.Keys <= back.loaded.Keys
      && back.enabled == t.enabled && ReadState(back.disk) == ReadState(down.disk)
  {
    var t := Run(s, steps);
    RunKeepsInv(s, steps);
    RunKeepsConfig(s, steps);
    RunKeepsSynced(s, steps);
    ShutdownStopsAll(t);
    StartEnabledRestores(reborn, t.enabled, outcome);
    assert NamesInv(t);
  }

  /** Unloading forgets a module across restarts exactly when it was loaded: for a name that is enabled
      but not loaded it does nothing. */
  lemma UnloadForgetsIff(s: Sup, name: string, reborn: Sup, outcome: nat -> LoadOutcome)
    requires Synced(s) && name in s.registry
    requires Initial(reborn) && reborn.registry == s.registry && reborn.disk == Unload(s, name, true).disk
    requires forall k: nat :: Succeeds(outcome(k))
    ensures name in StartEnabled(reborn, outcome).loaded <==> name in s.enabled && name !in s.loaded
  {
    var t := Unload(s, name, true);
    WithoutMembers(s.enabled, name);
    StartEnabledRestores(reborn, t.enabled, outcome);
  }
}
