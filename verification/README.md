# Penguin endpoint agent: verified core

Penguin is an endpoint agent: a daemon (`penguind`) that supervises product modules, streams their
events to clients, remembers which modules the operator enabled, caches the licence, and, through the
squawk module, manages the system's DNS resolver. This project models the parts of it where several
operations interact and proves what holds over every input, every interleaving and every crash.

* **Supervisor.** `SupervisorModel` describes each section run under the supervisor's lock as one step on a
  value; the restart goroutines that live between steps are two multisets of names, those waiting on a
  timer and those about to report a failed restart. Outcomes of Init, Start and saving are chosen by
  the environment, and every call made on every module instance is recorded. `SupervisorInvariants` proves
  what each step keeps, `SupervisorRuns` and `SupervisorLifecycle` draw the conclusions for whole runs,
  `SupervisorHistory` tells the state from the steps alone, `SupervisorObserver` from the events alone, and
  the class in `Supervisor.dfy` performs the updates field by field in the order of the source and is
  proved to take exactly those steps.
* **Resolver.** `ResolvConf` reads and writes resolv.conf; `ResolverModel` lists the file states each call goes
  through, so that a crash can be placed after any of them; the class in `Resolver.dfy` is proved to go
  through exactly those states. `ResolverLifetimes` strings whole process lifetimes together.
* **Durable files and licence cache.** `AtomicFile` and `Licensing`.
* **Event broker.** `EventBroker` is the interleaving machine; `WatchEvents` holds the object and the streaming loop.
* **Wire conversions and versions.** `Commands` and `Version`.

Where the code and its comments disagree the code is followed. Three cases are proved as such: Shutdown is
documented to stop modules in reverse load order but goes by descending name (`ReverseLoadOrderIff`);
CompareVersions is documented to compare semantic versions but ignores pre-releases
(`AgreesWithPrecedenceIff`, `PreReleaseNotToldApart`); and the marker's state blob, documented as the previous
state, is captured after the new file is written (`StateBlobIff`).

## Model

| member | source | states |
|---|---|---|
| SupervisorRuns.ReachableInstances | internal/daemon/supervisor.go:163-270 | In every reachable state, stale timers and failed restarts included: at most one live instance per name, it is the recorded one, every module context is held or cancelled, and each instance gets Init before Start, each at most once, and Stop only after a successful Start |
| SupervisorRuns.ReachableRecords | internal/daemon/supervisor.go:358-450 | In every reachable state a loaded module is registered and enabled; a degraded one has a timer or a report outstanding until shutdown begins; outside the window of an unreported failed restart the events replay to its recorded state, and Running means the recorded instance is live |
| SupervisorRuns.ReachableIdle | internal/daemon/supervisor.go:188-209 | The events never leave an observer believing that a module which is not loaded is running or degraded |
| SupervisorRuns.ReachableRestarts | internal/daemon/supervisor.go:366-394 | Each load has scheduled exactly min(restartAttempt, maxRestart-1) restarts, whose delays total at most 1.05 times the capped geometric sum |
| SupervisorRuns.DefaultRestartWait | internal/daemon/supervisor.go:33-53 | With the default settings the delays of one load total at most 1575 ms |
| SupervisorRuns.RestartsTerminate | internal/daemon/supervisor.go:358-450 | Without new loads or outside reports, the steps of restart goroutines number at most three times the remaining restart budget plus twice the timers plus the reports, whatever the modules do |
| SupervisorRuns.NothingOutstanding | internal/daemon/supervisor.go:398-450 | If no goroutine can move, none is outstanding |
| SupervisorRuns.SettledModules | internal/daemon/supervisor.go:358-450 | Once the goroutines are done and before shutdown, every loaded module is Running with a live instance, or Failed, and the events say so |
| SupervisorRuns.FailedStays | internal/daemon/supervisor.go:366-375 | A failed module with no timer outstanding stays failed through every run that neither unloads it nor shuts down |
| SupervisorRuns.FailedRevivedByTimer | internal/daemon/supervisor.go:400-444 | The converse: with a timer outstanding some run takes it back to Running with its count still at the limit |
| SupervisorRuns.FailedWithTimerReached | internal/daemon/supervisor.go:366-394 | From the start, any registered module can be driven into Failed with a timer outstanding, for every limit of at least two |
| SupervisorRuns.FailedWithTimerReachedIff | internal/daemon/supervisor.go:366-394 | Some run from the start reaches that state exactly when the limit is at least two |
| SupervisorRuns.NoTimersBelowTwo | internal/daemon/supervisor.go:366-375 | With a smaller limit, negative ones included, no run ever sets a timer |
| SupervisorRuns.TimerActsOnLaterLoad | internal/daemon/supervisor.go:398-444 | A timer survives an unload and replaces the instance of the next load of the same name |
| SupervisorRuns.AbandonStrands | internal/daemon/supervisor.go:398-450 | A run from the start that strands a module: degraded, with nothing outstanding for it |
| SupervisorRuns.StrandedIff | internal/daemon/supervisor.go:447-449 | Some run of abandoned restarts strands a degraded module exactly when shutdown has begun and no failure report is still to come for it |
| SupervisorInvariants.StepKeepsInv | internal/daemon/supervisor.go:160-450 | Every step keeps every invariant of instances, contexts, restart counts, outstanding work, events, names and load numbers |
| SupervisorInvariants.RunKeepsInv | internal/daemon/supervisor.go:160-450 | So does every run |
| SupervisorLifecycle.ShutdownStopsAll | internal/daemon/supervisor.go:287-307 | Shutdown leaves nothing loaded, nobody live and every context cancelled, and the enabled list in memory and on disk as it was |
| SupervisorLifecycle.ShutdownIsFinal | internal/daemon/supervisor.go:287-307 | Once nothing is loaded, every run without a new load, stale timers and reports included, loads nothing, creates and calls no instance, announces nothing and leaves the enabled list alone |
| SupervisorLifecycle.ShutdownOrder | internal/daemon/supervisor.go:296-304 | Shutdown announces the modules one after the other from the largest name to the smallest |
| SupervisorLifecycle.ReverseLoadOrderIff | internal/daemon/supervisor.go:287-304 | That is the documented reverse load order exactly when the modules were loaded in ascending order of name |
| SupervisorLifecycle.ReverseLoadOrderFails | internal/daemon/supervisor.go:287-304 | A run for which it is not |
| SupervisorLifecycle.LoadEachIsRun | internal/daemon/supervisor.go:279-284 | Starting the enabled modules is a run of ordinary load steps, so every statement about runs covers it |
| SupervisorLifecycle.LoadEachEffect | internal/daemon/supervisor.go:279-284 | Loading the names on the enabled list leaves the list and the file unchanged, loads only registered names on it, and all of them if the loads succeed |
| SupervisorLifecycle.StartEnabledRestores | internal/daemon/supervisor.go:272-285 | A fresh supervisor whose loads succeed has loaded exactly the registered enabled names |
| SupervisorLifecycle.StartWithoutList | internal/daemon/supervisor.go:274-277 | A missing state file is an empty list; an unreadable one changes nothing |
| SupervisorLifecycle.RestartBringsBack | internal/daemon/supervisor.go:272-307 | After any run with successful saves and a shutdown, a fresh supervisor brings back everything that was loaded and leaves the list on disk unchanged |
| SupervisorLifecycle.UnloadForgetsIff | internal/daemon/supervisor.go:231-250 | After an unload, a restart brings the module back exactly when it was enabled but not loaded, in which case the unload did nothing |
| SupervisorLifecycle.RunKeepsSynced | internal/daemon/supervisor.go:221-246 | With successful saves the file holds the list in memory after every run |
| SupervisorLifecycle.RunKeepsDistinct | internal/daemon/supervisor.go:455-474 | A duplicate-free enabled list stays duplicate-free in every run |
| SupervisorHistory.FailedLoad | internal/daemon/supervisor.go:163-229 | Loading a loaded or unknown name changes nothing; a load that fails at any stage loads, enables and saves nothing, and without a licence calls and announces nothing |
| SupervisorHistory.LoadedIff | internal/daemon/supervisor.go:163-307 | After every run a module is loaded exactly when its last successful load was not followed by an unload or a shutdown, whatever timers and reports did |
| SupervisorHistory.EnabledIff | internal/daemon/supervisor.go:212-246 | After every run the list in memory holds exactly the names enabled by a successful load, or from the start, and not disabled by an unload since, whether or not the saves succeeded |
| SupervisorHistory.StoredIff | internal/daemon/supervisor.go:221-246 | The file holds exactly what the list held at the last successful save |
| SupervisorHistory.NeverEnabled | internal/daemon/supervisor.go:163-229 | A name that no successful load ever added never appears in the list or on disk |
| SupervisorHistory.EveryReportCounts | internal/daemon/supervisor.go:358-395 | The restart count is exactly the number of failures reported since the load, restarts or not, and beyond the limit too |
| SupervisorHistory.ReportVerdict | internal/daemon/supervisor.go:131-133 | A report parks the module exactly when it brings that number to the configured limit, five if none is configured, or beyond; otherwise the module is degraded |
| SupervisorHistory.EveryDelayPossible | internal/daemon/supervisor.go:377-380 | With jitter the scheduled delay can be anything from 95 to just under 105 per cent of the capped delay of that attempt, and nothing else |
| SupervisorHistory.FailedRestart | internal/daemon/supervisor.go:408-437 | A failed restart stops the recorded instance, leaves the record as it was, even one saying Running, and leaves one report to be made |
| SupervisorHistory.GoodRestart | internal/daemon/supervisor.go:429-444 | A successful one records the new, live instance as running and leaves the count alone |
| SupervisorHistory.DeadButRunningReached | internal/daemon/supervisor.go:400-437 | A run from the start after which a module is recorded as running although nothing of it is live |
| SupervisorHistory.DeadButRunningIff | internal/daemon/supervisor.go:400-437 | Such a run exists exactly when the limit is at least two |
| SupervisorObserver.ObserverKnows | internal/daemon/supervisor.go:160-450 | In every run the announcements of a module follow its life cycle, told by an automaton, and whoever follows them knows whether it is loaded |
| SupervisorObserver.BooksBalance | internal/daemon/supervisor.go:160-450 | In every run the calls made on a module's instances are exactly those its announcements stand for: each Init an Initializing, each Start a Running after a successful Init, each Stop a Stopped or a restart |
| SupervisorObserver.OnlyHostedAnnounced | internal/daemon/supervisor.go:491-502 | Modules without a host are never announced |
| SupervisorObject.Supervisor.constructor | internal/daemon/supervisor.go:127-158 | A new supervisor has nothing loaded, an empty list, and five as the default limit |
| SupervisorObject.Supervisor.PublishEvent | internal/daemon/supervisor.go:491-523 | An event reaches the module's host if there is one and is dropped otherwise |
| SupervisorObject.Supervisor.Load | internal/daemon/supervisor.go:163-229 | Takes exactly the load step, with the error of the first stage that fails, and none exactly when the module is loaded afterwards |
| SupervisorObject.Supervisor.StopLocked | internal/daemon/supervisor.go:254-270 | Takes exactly the stop step and leaves the enabled list alone |
| SupervisorObject.Supervisor.Unload | internal/daemon/supervisor.go:233-250 | Takes exactly the unload step |
| SupervisorObject.Supervisor.Shutdown | internal/daemon/supervisor.go:291-307 | Takes the two shutdown steps: the lifetime ends, then everything is stopped, largest name first |
| SupervisorObject.Supervisor.ReportFailure | internal/daemon/supervisor.go:358-395 | Takes exactly the report step: parked at the limit, otherwise degraded with a timer |
| SupervisorObject.Supervisor.FireTimer | internal/daemon/supervisor.go:398-450 | Takes exactly the timer step; nothing happens for a name no longer loaded |
| SupervisorObject.Supervisor.RestartModule | internal/daemon/supervisor.go:408-444 | Stops the old instance, cancels its context, tries a new one, and leaves a report to be made on failure |
| SupervisorObject.Supervisor.ReportFailedRestart | internal/daemon/supervisor.go:423-437 | The report of a failed restart is an ordinary failure report |
| SupervisorObject.Supervisor.AbandonTimer | internal/daemon/supervisor.go:447-449 | A restart is abandoned only once the lifetime has ended, and changes nothing else |
| SupervisorObject.Supervisor.StartEnabledModules | internal/daemon/supervisor.go:274-285 | Adopts the list on disk and tries each name on it; fails only on an unreadable file |
| EnabledList.AddTo | internal/daemon/supervisor.go:455-462 | The scan appends the name exactly when it is absent |
| EnabledList.CompactInPlace | internal/daemon/supervisor.go:465-474 | The in-place compaction equals the filter that removes all occurrences, and does not touch the rest of the array |
| EnabledList.WithoutMembers | internal/daemon/supervisor.go:465-474 | The filter keeps exactly the other names |
| EnabledList.WithoutKeepsOrder | internal/daemon/supervisor.go:465-474 | The filter keeps the order of what stays and how often each other name occurs |
| EnabledList.AddThenWithout | internal/daemon/supervisor.go:455-474 | Removing undoes adding, adding is idempotent and keeps duplicate-free lists duplicate-free |
| Backoff.CappedDelayBounds | internal/daemon/supervisor.go:43-47 | The delay before jitter starts at Initial, stays within [Initial, Max] and never shrinks from one attempt to the next |
| Backoff.CappedDelayMonotone | internal/daemon/supervisor.go:43-47 | Nor over any number of attempts |
| Backoff.CappedDelayGrows | internal/daemon/supervisor.go:43-47 | Each delay before jitter is the one before times the multiplier, cut off at the maximum |
| Backoff.DefaultDelays | internal/daemon/supervisor.go:32-40 | By default the delays double from 100 ms and are 30 s from the tenth on, before jitter |
| Backoff.JitterStaysInBand | internal/daemon/supervisor.go:48-52 | Jitter keeps the delay within five per cent |
| Backoff.JitterCoversBand | internal/daemon/supervisor.go:48-52 | Jitter can yield a delay exactly when it lies from 95 to just under 105 per cent |
| Backoff.TotalBound | internal/daemon/supervisor.go:43-53 | Delays in band total at most 1.05 times the capped geometric sum |
| NameOrder.ListingUnique | internal/daemon/supervisor.go:296-300 | A set of names has only one sorted listing |
| NameOrder.SortNames | internal/daemon/supervisor.go:296-300 | Sorting the loaded names yields that listing |
| NameOrder.LessIff | internal/daemon/supervisor.go:300-300 | Names are compared at their first difference, a prefix coming first |
| ResolvConf.RenderedRoundTrip | internal/modules/squawk/sysresolver_linux.go:57-118 | Reading a file just written returns exactly the servers, in order |
| ResolvConf.RenderedOne | internal/modules/squawk/sysresolver_linux.go:105-112 | The file for one server, character for character |
| ResolvConf.LineServerIff | internal/modules/squawk/sysresolver_linux.go:65-75 | A line names a server exactly when it is white space, the keyword with one blank, any white space, a field that parses, and nothing or white space and anything |
| ResolvConf.LinesServersConcat | internal/modules/squawk/sysresolver_linux.go:64-75 | The lines are read one by one, in order |
| ResolvConf.LinesServersAreAddresses | internal/modules/squawk/sysresolver_linux.go:64-81 | What the reader returns parses back to itself |
| ResolvConf.ReadServers | internal/modules/squawk/sysresolver_linux.go:64-75 | The reading loop finds the addresses of the nameserver lines, in order |
| ResolvConf.WriteServers | internal/modules/squawk/sysresolver_linux.go:104-112 | The writing loop produces the header, one line per server and a final newline |
| ResolverModel.CrashTolerance | internal/modules/squawk/sysresolver.go:97-178 | Once Apply has written its marker over a file naming a server, any sequence of restores and recoveries, each crashing after any file step or finishing, writes and removals failing at will, followed by a recovery that finishes and can write the file, leaves the servers that were in force before |
| ResolverModel.CrashToleranceIff | internal/modules/squawk/sysresolver_linux.go:94-138 | With the backup written or not: every sequence of attempts, failures and crashes followed by a finished recovery that can write gives the old servers back exactly when the backup was written, or a stale one names the same servers, or there was no backup and the servers did not change |
| ResolverModel.TryAllSafe | internal/modules/squawk/sysresolver.go:97-178 | Every file step on the way keeps the list recoverable, whatever fails |
| ResolverModel.ApplyThenRestore | internal/modules/squawk/sysresolver_linux.go:94-138 | Apply then Restore, from memory or from disk, puts a file back byte for byte and leaves neither backup nor marker exactly when the file existed; otherwise it becomes a stale backup or names the fallback server |
| ResolverModel.CrashInApplyIff | internal/modules/squawk/sysresolver.go:54-94 | For every existing file, leftover backup and leftover marker: after a crash within Apply and a recovery the file is as before exactly when, before any step, no leftover marker names a server or what recovery puts back is the same; after the backup, always; after the file, a leftover marker names a server or nothing changed; after the marker, the old file named a server or nothing changed |
| ResolverModel.RestoreUndoesLastApply | internal/modules/squawk/sysresolver_linux.go:94-102 | A second Apply overwrites the backup, so Restore undoes only the last one |
| ResolverModel.FailedBackupLosesList | internal/modules/squawk/sysresolver_linux.go:97-128 | If the backup write failed and there was no backup, a crash during recovery makes the applied servers permanent |
| ResolverModel.StaleBackupWins | internal/modules/squawk/sysresolver_linux.go:97-128 | If the backup write failed over a stale backup, a plain recovery puts the stale servers in force |
| ResolverModel.StateBlobIff | internal/modules/squawk/sysresolver.go:70-94 | The state blob in the marker is the previous file exactly when Apply changed nothing |
| ResolverModel.RecoveredFiles | internal/modules/squawk/sysresolver.go:146-178 | What recovery makes of any files: without a marker naming a server only a readable marker goes; otherwise the backup is put back and used up, or the named servers are written |
| ResolverModel.RestoredFiles | internal/modules/squawk/sysresolver.go:97-138 | What restoring makes of them: the marker in memory counts before the one on disk, a backup before the servers either names, and 1.1.1.1 is the last resort |
| ResolverModel.UnwritableConf | internal/modules/squawk/sysresolver.go:127-130 | While the file cannot be written, Apply, Restore and recovery change neither it nor the marker at any step |
| ResolverModel.UnmarkedApply | internal/modules/squawk/sysresolver.go:86-91 | If the marker write fails and there was none, the process can still undo its Apply byte for byte, but the next one leaves the applied servers in force |
| ResolverModel.ParsedConcat | internal/modules/squawk/sysresolver.go:111-120 | The saved strings are taken one by one, those that do not parse skipped |
| ResolverLifetimes.ListOverLifetimes | internal/modules/squawk/module.go:98-110 | Over any number of process lifetimes (a recovery that dies anywhere, or ends and is followed by nothing, an Apply that crashes anywhere, or an Apply and any restores and recoveries crashing anywhere; all writes of recoveries and restores and Apply's write of the file failing at will) the next recovery that can write puts in force the list followed through the lifetimes: what the file named when Apply last wrote its marker, or the applied servers of an exposed crash; provided no lifetime is rash |
| ResolverLifetimes.OriginalServersReturn | internal/modules/squawk/module.go:98-110 | So the original servers come back if no crash falls between writing the file and the marker with no marker present, and no Apply follows a recovery that could not write the file |
| ResolverLifetimes.LifetimeLeads | internal/modules/squawk/module.go:207-215 | The invariant of one lifetime, without assumptions on the writes of its recovery and attempts |
| ResolverLifetimes.ExposedLosesList | internal/modules/squawk/module.go:207-215 | From any existing file without a marker, that one crash makes the applied servers permanent |
| ResolverLifetimes.RashLosesList | internal/modules/squawk/module.go:106-109 | Init goes on after a failed recovery: an Apply that gets to any file step then makes whatever the unrestored file named take the place of the original servers |
| ResolverObject.Resolver.CurrentServers | internal/modules/squawk/sysresolver_linux.go:57-82 | The servers in the file, or an error when it is missing or names none |
| ResolverObject.Resolver.ApplyViaResolvConf | internal/modules/squawk/sysresolver_linux.go:94-118 | Backs up a readable file, then writes the new one; a failing backup is tolerated |
| ResolverObject.Resolver.RestoreViaResolvConf | internal/modules/squawk/sysresolver_linux.go:121-138 | Puts the backup back and removes it, or writes the given servers when there is none |
| ResolverObject.Resolver.Apply | internal/modules/squawk/sysresolver.go:55-94 | Goes through exactly the modelled file states; refuses an empty list |
| ResolverObject.Resolver.Restore | internal/modules/squawk/sysresolver.go:97-138 | Goes through exactly the modelled file states; fails without a saved marker, and keeps it in memory on failure |
| ResolverObject.Resolver.RecoverFromCrash | internal/modules/squawk/sysresolver.go:146-178 | Goes through exactly the modelled file states; succeeds quietly without a marker |
| ResolverObject.Resolver.ParseSaved | internal/modules/squawk/sysresolver.go:159-167 | Keeps the saved strings that parse, in order |
| AtomicFile.CrashLeavesOldOrNew | internal/daemon/state.go:38-79 | After a crash anywhere the destination is exactly the old or exactly the new file, and no other file is touched |
| AtomicFile.ReturnLeaves | internal/daemon/state.go:49-79 | Every error exit leaves the old file, and the temporary stays behind exactly when its removal failed or, in Save, when the rename failed |
| AtomicFile.SaveIsAtomic | internal/daemon/state.go:17-79 | Save and LoadState together: the file reads as the old or the new list after a crash, and as the new one on return exactly on success |
| AtomicFile.FileSystem.Replace | internal/daemon/state.go:49-79 | The write goes through exactly the modelled file states, byte by byte, with clean-up on every error exit |
| Licensing.AnswersLikeResponse | internal/licensing/client.go:122-168 | For every history of successful and failed validations and restarts, a feature is enabled exactly when the last entry of that name in the response in force is entitled, and the tier is that response's; before any response a readable cache file answers |
| Licensing.NoKeyNoFeatures | internal/licensing/client.go:126-157 | Without a licence key nothing is ever enabled, the cache file is left alone and validating forgets the tier |
| Licensing.FeatureMapMeaning | internal/licensing/client.go:249-252 | The rebuilt map answers for the last entry of each name |
| Licensing.PersistIsAtomic | internal/licensing/client.go:266-340 | The cache file reads as the old or the new cache after a crash, and a failed call leaves no temporary file it can remove |
| Licensing.LicenseClient.constructor | internal/licensing/client.go:83-118 | A new client starts from a readable cache file and otherwise with everything disabled |
| Licensing.LicenseClient.IsEnabled | internal/licensing/client.go:122-139 | Answers from the cache; unknown features are off |
| Licensing.LicenseClient.Refresh | internal/licensing/client.go:150-168 | Takes exactly the validation step; a failed fetch changes nothing |
| Licensing.LicenseClient.UpdateCache | internal/licensing/client.go:244-257 | Rebuilds the cache from the response and persists it if that succeeds |
| EventBroker.ReachableBroker | internal/daemon/server.go:49-91 | In every interleaving: received plus buffered is an in-order selection of the events offered, complete unless an offer found the buffer full; buffers hold at most ten; no closed channel is sent to or closed again; channels are open exactly while subscribed; every event published since subscribing is offered exactly once |
| EventBroker.DeliverMeaning | internal/daemon/server.go:84-90 | A delivery appends its event to the subscriber's buffer if fewer than ten wait there and otherwise leaves it; no other channel changes |
| EventBroker.DropsCounted | internal/daemon/server.go:84-90 | In every run exactly the offers that found ten events waiting are missing from what was received or is buffered, so nothing is missing exactly when none did |
| EventBroker.IdsReusedIff | internal/daemon/server.go:53-56 | Two subscriptions get the same identifier exactly when their positions differ by a multiple of two to the 64 |
| WatchEvents.Watch | internal/daemon/server.go:384-402 | The loop stops at the first arrival that ends it, the end of context or channel or a wanted event it cannot send, and has forwarded the wanted events before it in order |
| WatchEvents.MatchingEverything | internal/daemon/server.go:393-396 | An empty module name asks for every event |
| WatchEvents.MatchingModule | internal/daemon/server.go:393-396 | Any other selects, in order and as often as they occur, all events of that module and no others |
| WatchEvents.WatchEverything | internal/daemon/server.go:384-402 | A watch of everything that meets events it can send and then an end sends exactly those events |
| WatchEvents.WatchSubscription | internal/daemon/server.go:373-403 | The loop run on a channel of a reachable broker: if its arrivals are what was taken out of that channel, the client is sent an in-order selection of the wanted events offered since it subscribed, and all of them (everything offered, if no module is named) if no offer found ten waiting, nothing is still buffered and no send failed |
| WatchEvents.EventBrokerObject.constructor | internal/daemon/server.go:41-46 | A new broker has no subscribers and hands out identifiers from one |
| WatchEvents.EventBrokerObject.SubscribeClient | internal/daemon/server.go:49-58 | Takes exactly the subscribe step: a fresh open channel under the next identifier |
| WatchEvents.EventBrokerObject.UnsubscribeClient | internal/daemon/server.go:61-69 | Takes exactly the unsubscribe step: closes the channel once, ignores unknown identifiers |
| WatchEvents.EventBrokerObject.Publish | internal/daemon/server.go:72-91 | Is a run of the broker's steps, begin, deliveries, end; every subscriber with fewer than ten events waiting gets the event at the end of its buffer, the others keep theirs, and nobody else's channel changes |
| Commands.PluginIndistinguishable | internal/extplugin/client.go:275-302 | For trees of any depth, going through the plugin wire first gives the same daemon tree |
| Commands.PluginRoundTripIff | pkg/sdk/serve.go:147-174 | The plugin round trip is the identity exactly on trees whose argument bounds fit 32 bits |
| Commands.PluginRoundTrip | pkg/sdk/serve.go:147-174 | In general it saturates the bounds and changes nothing else |
| Commands.DaemonMeaning | internal/daemon/server.go:291-318 | So does the daemon's wire form |
| Commands.PluginMeaning | pkg/sdk/serve.go:147-174 | The plugin form carries field by field the same values as the daemon form |
| Commands.ClampNearest | internal/daemon/server.go:320-330 | Bounds go to the nearest 32-bit value |
| Commands.ClampPreservesDecisionIff | internal/cli/builder.go:83-92 | Saturating never changes whether an argument count is accepted exactly for counts below 2^31-1 |
| Commands.EveryCommandDecides | internal/cli/builder.go:75-120 | At every depth the daemon's tree has the same commands, and each accepts exactly the argument counts from its minimum to its maximum, a negative maximum meaning none |
| Commands.CommandToDaemon | internal/daemon/server.go:291-318 | The recursive loops compute the daemon form |
| Commands.CommandToPlugin | pkg/sdk/serve.go:147-174 | The recursive loops compute the plugin form |
| Commands.PluginToCommand | internal/extplugin/client.go:275-302 | The recursive loops read the plugin form back |
| Version.ParseRendered | internal/update/updater.go:290-316 | A rendered version, with or without the leading v and with any suffix not starting with a digit, parses to its numbers wrapped to 64 bits |
| Version.ParseRenderedIff | internal/update/updater.go:290-316 | The numbers come back exactly when each is below 2^63 |
| Version.ParseMissing | internal/update/updater.go:294-316 | Missing numbers count as zero |
| Version.ComparePreorder | internal/update/updater.go:264-287 | Comparison is a total preorder, zero exactly on equal triples |
| Version.CompareRendered | internal/update/updater.go:264-287 | Of two rendered versions whose numbers fit, the smaller major, then minor, then patch number gives -1, the larger 1, and equal ones 0 |
| Version.CompareOverflows | internal/update/updater.go:308-312 | 2^63 as a major number compares below zero |
| Version.AgreesWithPrecedenceIff | internal/update/updater.go:264-287 | It agrees with section 11 of Semantic Versioning 2.0.0 exactly when the triples differ or the pre-releases are the same |
| Version.PreReleaseNotToldApart | internal/update/updater.go:264-287 | 1.0.0-alpha ranks below 1.0.0 by precedence and compares equal here |
| Version.Parse | internal/update/updater.go:290-316 | The digit loops fill the three numbers |
| Version.Compare | internal/update/updater.go:266-287 | The loop with early return is the lexicographic order of the triples |

## Left out

- SupervisorObject.Supervisor.PublishEvent: does not model the event's message, fields and timestamp; which kind of event for which module, and in which order, is what the replay statements need.
- ResolverLifetimes.ListOverLifetimes: assumes that Apply's writes of backup and marker succeed when it gets to them; their failures are treated for a single Apply, by CrashToleranceIff and UnmarkedApply.
- Transport: gRPC services and clients, IPC listeners, peer authorization and generated protobuf code.
- Status, List, Module and Info: read-only views that would only add easy members.
- Nil hosts: a host that is missing only silences events here; the source would dereference nil for a licence-gated module without a host.
- Panics and deadlocks inside modules: module calls are atomic and return; a module that calls back into the supervisor from Init is not modelled.
- StartEnabled racing with Unload: the source walks the slice that a concurrent Unload compacts in place; here the list is read once, and loads of arbitrary names may interleave as separate steps.
- Wall-clock time: a timer may fire at any moment after it is scheduled; `nextRestartAt` and timestamps are not recorded.
- Backoff: durations are exact reals; rounding to whole nanoseconds and float overflow are not modelled.
- Address, JSON and YAML parsing: parameters with a round-trip law; addresses are their canonical text.
- A failing write of resolv.conf or its backup leaves the old file; partial writes by a crash inside `os.WriteFile` are not modelled for the resolver (they are for the temporary-file writes).
- resolv.conf as text: invalid UTF-8 is not modelled.
- File permissions, MkdirAll effects and directory fsync.
- The systemd-resolved path, a stub that always fails, and the darwin and windows resolvers, which ignore the saved servers.
- The licence fetch over HTTP, the refresh ticker and the time of the last fetch.
- The broker used by the server is not the one given to module hosts; the statements are about one broker.
- Plugin verification, keyring, self-update download and swap, tobogganing, tray, telemetry, lock files and configuration defaults.
