/** Applying, restoring and recovering the system resolver as sequences of file steps. Every file
    operation is one atomic step, and a crash may come after any of them. */
module ResolverModel {
  import opened Common
  import opened Text
  import opened ResolvConf

  /** The crash-recovery marker. The state blob is captured after the new file is in place. */
  datatype Marker = Marker(previousServers: seq<string>, previousState: string)

  datatype MarkerFile = NoMarker | Garbled | Wrote(marker: Marker)

  /** resolv.conf, its backup copy, and the marker file. */
  datatype Files = Files(conf: Option<string>, backup: Option<string>, marker: MarkerFile)

  /** Which file operations of one call succeed. */
  datatype Outcomes = Outcomes(backupWrite: bool, confWrite: bool, markerWrite: bool, backupRemove: bool, markerRemove: bool)

  const ALL_OK := Outcomes(true, true, true, true, true)
  const FALLBACK := "1.1.1.1"

  // ---- File steps ----

  /** Back the file up if it can be read, then write the new one. */
  function ReplaceConf(f: Files, servers: seq<string>, o: Outcomes): seq<Files> {
    var f1 := if f.conf.Some? && o.backupWrite then f.(backup := f.conf) else f;
    var f2 := if o.confWrite then f1.(conf := Some(Rendered(servers))) else f1;
    [f1, f2]
  }

  /** Put the backup in place and remove it; without a backup write the given servers instead. */
  function RestoreConf(f: Files, servers: seq<string>, o: Outcomes): seq<Files> {
    match f.backup
    case None => ReplaceConf(f, servers, o)
    case Some(content) =>
      if !o.confWrite then [f]
      else
        var f1 := f.(conf := Some(content));
        var f2 := if o.backupRemove then f1.(backup := None) else f1;
        [f1, f2]
  }

  function DeleteMarker(f: Files, o: Outcomes): Files {
    if o.markerRemove then f.(marker := NoMarker) else f
  }

  function Last(f: Files, steps: seq<Files>): Files {
    if steps == [] then f else steps[|steps| - 1]
  }

  // ---- Calls, each as the list of file states it goes through ----

  function Known(current: Option<seq<string>>): seq<string> {
    match current
    case None => []
    case Some(servers) => servers
  }

  function MarkerFor(parse: AddrParser, before: Files, servers: seq<string>): Marker {
    Marker(Known(Current(parse, before.conf)), Rendered(servers))
  }

  function ApplySteps(parse: AddrParser, f: Files, servers: seq<string>, o: Outcomes): seq<Files> {
    if servers == [] then []
    else
      var steps := ReplaceConf(f, servers, o);
      if !o.confWrite then steps
      else
        var f2 := steps[1];
        steps + [if o.markerWrite then f2.(marker := Wrote(MarkerFor(parse, f, servers))) else f2]
  }

  /** The addresses among the saved strings. */
  function Parsed(parse: AddrParser, saved: seq<string>): seq<string> {
    if saved == [] then []
    else
      var front := Parsed(parse, saved[..|saved| - 1]);
      match parse(saved[|saved| - 1])
      case None => front
      case Some(a) => front + [a]
  }

  function ReadMarker(m: MarkerFile): Option<Marker> {
    if m.Wrote? then Some(m.marker) else None
  }

  /** The marker in memory, or else the one on disk. */
  function Saved(f: Files, mem: Option<Marker>): Option<Marker> {
    if mem.Some? then mem else ReadMarker(f.marker)
  }

  function RestoreSteps(parse: AddrParser, f: Files, mem: Option<Marker>, o: Outcomes): seq<Files> {
    match Saved(f, mem)
    case None => []
    case Some(m) =>
      var servers := Parsed(parse, m.previousServers);
      var steps := RestoreConf(f, if servers == [] then [FALLBACK] else servers, o);
      if o.confWrite then steps + [DeleteMarker(Last(f, steps), o)] else steps
  }

  function RecoverSteps(parse: AddrParser, f: Files, o: Outcomes): seq<Files> {
    match ReadMarker(f.marker)
    case None => []
    case Some(m) =>
      var servers := Parsed(parse, m.previousServers);
      if servers == [] then [DeleteMarker(f, o)]
      else
        var steps := RestoreConf(f, servers, o);
        if o.confWrite then steps + [DeleteMarker(Last(f, steps), o)] else steps
  }

  // ---- Processes that crash ----

  /** The files, and what the current process remembers. */
  datatype Machine = Machine(files: Files, mem: Option<Marker>)

  /** One call, crashing after the given number of file steps or running to its end. */
  datatype Attempt =
    | Restore(outcomes: Outcomes, crash: Option<nat>)
    | Recover(outcomes: Outcomes, crash: Option<nat>)

  function AttemptSteps(parse: AddrParser, m: Machine, a: Attempt): seq<Files> {
    match a
    case Restore(o, _) => RestoreSteps(parse, m.files, m.mem, o)
    case Recover(o, _) => RecoverSteps(parse, m.files, o)
  }

  /** A crash loses memory and keeps the files of the last completed step; a successful restore
      forgets the marker it used, a failing one keeps it in memory. */
  function Try(parse: AddrParser, m: Machine, a: Attempt): Machine {
    var steps := AttemptSteps(parse, m, a);
    match a.crash
    case Some(k) => Machine(Last(m.files, if k < |steps| then steps[..k] else steps), None)
    case None =>
      Machine(Last(m.files, steps),
              if a.Recover? then m.mem
              else if a.outcomes.confWrite then None
              else Saved(m.files, m.mem))
  }

  function TryAll(parse: AddrParser, m: Machine, attempts: seq<Attempt>): Machine {
    if attempts == [] then m
    else Try(parse, TryAll(parse, m, attempts[..|attempts| - 1]), attempts[|attempts| - 1])
  }

  // ---- Crash tolerance ----

  predicate SavedList(m: Marker, list: seq<string>) {
    m.previousServers == list
  }

  /** What every file step of restoring or recovering keeps: the list can still be had back. The file
      may name other servers only while the marker and a good backup are both there. */
  predicate SafeFiles(parse: AddrParser, f: Files, list: seq<string>) {
    && f.conf.Some?
    && f.marker != Garbled
    && (f.marker.Wrote? ==> SavedList(f.marker.marker, list))
    && (f.backup.Some? ==> Current(parse, f.backup) == Some(list))
    && (f.marker.NoMarker? || f.backup.None? ==> Current(parse, f.conf) == Some(list))
  }

  predicate Safe(parse: AddrParser, m: Machine, list: seq<string>) {
    SafeFiles(parse, m.files, list) && (m.mem.Some? ==> SavedList(m.mem.value, list))
  }

  predicate AllSafe(parse: AddrParser, steps: seq<Files>, list: seq<string>) {
    forall k :: 0 <= k < |steps| ==> SafeFiles(parse, steps[k], list)
  }

  lemma {:induction false} ParsedAddresses(parse: AddrParser, list: seq<string>)
    requires Addresses(parse, list)
    ensures Parsed(parse, list) == list
  {
    if list != [] {
      ParsedAddresses(parse, list[..|list| - 1]);
      assert Address(parse, list[|list| - 1]);
      assert list == list[..|list| - 1] + [list[|list| - 1]];
    }
  }

  /** Putting the list back keeps the files safe at every step, whichever writes and removals fail, and
      ends with the list in force if the file could be written. */
  lemma RestoreConfSafe(parse: AddrParser, f: Files, list: seq<string>, o: Outcomes)
    requires SafeFiles(parse, f, list) && Addresses(parse, list) && list != []
    ensures
      var steps := RestoreConf(f, list, o);
      && 1 <= |steps| <= 2 && AllSafe(parse, steps, list)
      && (o.confWrite ==> Current(parse, Last(f, steps).conf) == Some(list))
  {
    RenderedRoundTrip(parse, list);
    var steps := RestoreConf(f, list, o);
    assert SafeFiles(parse, steps[0], list);
    assert |steps| == 2 ==> SafeFiles(parse, steps[1], list);
  }

  lemma {:induction false} RestoreAndDeleteSafe(parse: AddrParser, f: Files, list: seq<string>, o: Outcomes)
    requires SafeFiles(parse, f, list) && Addresses(parse, list) && list != [] && o.confWrite
    ensures
      var steps := RestoreConf(f, list, o);
      var all := steps + [DeleteMarker(Last(f, steps), o)];
      AllSafe(parse, all, list) && Current(parse, Last(f, all).conf) == Some(list)
  {
    RestoreConfSafe(parse, f, list, o);
    var steps := RestoreConf(f, list, o);
    assert SafeFiles(parse, DeleteMarker(Last(f, steps), o), list);
  }

  /** Every file step of a restore or a recovery keeps the files safe, whatever fails; one that can write
      the file ends with the list in force. */
  lemma CallSafe(parse: AddrParser, m: Machine, list: seq<string>, a: Attempt)
    requires Safe(parse, m, list) && Addresses(parse, list) && list != []
    ensures AllSafe(parse, AttemptSteps(parse, m, a), list)
    ensures a.outcomes.confWrite && (a.Recover? || Saved(m.files, m.mem).Some?) ==>
      Current(parse, Last(m.files, AttemptSteps(parse, m, a)).conf) == Some(list)
  {
    ParsedAddresses(parse, list);
    RestoreConfSafe(parse, m.files, list, a.outcomes);
    if a.outcomes.confWrite {
      RestoreAndDeleteSafe(parse, m.files, list, a.outcomes);
    }
    var steps, all := RestoreConf(m.files, list, a.outcomes), AttemptSteps(parse, m, a);
    assert all == [] ||
           all == if a.outcomes.confWrite then steps + [DeleteMarker(Last(m.files, steps), a.outcomes)] else steps;
  }

  lemma TrySafe(parse: AddrParser, m: Machine, list: seq<string>, a: Attempt)
    requires Safe(parse, m, list) && Addresses(parse, list) && list != []
    ensures Safe(parse, Try(parse, m, a), list)
    ensures a.outcomes.confWrite && a.crash.None? && (a.Recover? || Saved(m.files, m.mem).Some?) ==>
      Current(parse, Try(parse, m, a).files.conf) == Some(list)
  {
    CallSafe(parse, m, list, a);
  }

  lemma {:induction false} TryAllSafe(parse: AddrParser, m: Machine, list: seq<string>, attempts: seq<Attempt>)
    requires Safe(parse, m, list) && Addresses(parse, list) && list != []
    ensures Safe(parse, TryAll(parse, m, attempts), list)
  {
    if attempts != [] {
      TryAllSafe(parse, m, list, attempts[..|attempts| - 1]);
      TrySafe(parse, TryAll(parse, m, attempts[..|attempts| - 1]), list, attempts[|attempts| - 1]);
    }
  }

  /** The files once Apply has written its marker. */
  function Applied(parse: AddrParser, f: Files, servers: seq<string>): Files {
    Files(Some(Rendered(servers)), f.conf, Wrote(MarkerFor(parse, f, servers)))
  }

  lemma ApplyEnds(parse: AddrParser, f: Files, servers: seq<string>)
    requires servers != [] && f.conf.Some?
    ensures Last(f, ApplySteps(parse, f, servers, ALL_OK)) == Applied(parse, f, servers)
  {
  }

  /** Once Apply has written its marker over a file that named at least one server, any number of
      restore and recovery attempts, each crashing after any file step or finishing, with writes and removals
      failing at will, followed by one recovery that finishes and can write the file, leave the servers
      that were in force before. */
  lemma {:induction false} CrashTolerance(parse: AddrParser, f: Files, servers: seq<string>, list: seq<string>,
                       mem: Option<Marker>, attempts: seq<Attempt>, last: Outcomes)
    requires Lawful(parse) && servers != []
    requires Current(parse, f.conf) == Some(list)
    requires mem == None || mem == Some(MarkerFor(parse, f, servers))
    requires last.confWrite
    ensures
      var start := Machine(Last(f, ApplySteps(parse, f, servers, ALL_OK)), mem);
      var end := Try(parse, TryAll(parse, start, attempts), Recover(last, None));
      Current(parse, end.files.conf) == Some(list)
  {
    ApplyEnds(parse, f, servers);
    var start := Machine(Applied(parse, f, servers), mem);
    LinesServersAreAddresses(parse, Split(f.conf.value, '\n'));
    assert Safe(parse, start, list);
    TryAllSafe(parse, start, list, attempts);
    TrySafe(parse, TryAll(parse, start, attempts), list, Recover(last, None));
  }

  // ---- Byte-exact undo ----

  /** Apply and then Restore put an existing file back byte for byte and leave neither backup nor marker,
      whatever it held and whatever was left over from earlier. Undoing is exact exactly then: a file that
      was missing comes back as a stale backup or, without one, naming the fallback server. */
  lemma ApplyThenRestore(parse: AddrParser, f: Files, servers: seq<string>, fromDisk: bool)
    requires servers != []
    ensures
      var applied := Last(f, ApplySteps(parse, f, servers, ALL_OK));
      var mem := if fromDisk then None else Some(MarkerFor(parse, f, servers));
      var restored := Last(applied, RestoreSteps(parse, applied, mem, ALL_OK));
      && (restored.conf == f.conf <==> f.conf.Some?)
      && (f.conf.Some? ==> restored == Files(f.conf, None, NoMarker))
      && (f.conf.None? && f.backup.Some? ==> restored == Files(f.backup, None, NoMarker))
      && (f.conf.None? && f.backup.None? ==>
            restored == Files(Some(Rendered(["1.1.1.1"])), Some(Rendered(servers)), NoMarker))
  {
    if f.conf.Some? {
      ApplyEnds(parse, f, servers);
    } else {
      assert Last(f, ApplySteps(parse, f, servers, ALL_OK))
          == Files(Some(Rendered(servers)), f.backup, Wrote(MarkerFor(parse, f, servers)));
    }
  }

  /** The servers a marker file lets recovery put back; none if it is missing, garbled or names none. */
  function Named(parse: AddrParser, m: MarkerFile): seq<string> {
    if m.Wrote? then Parsed(parse, m.marker.previousServers) else []
  }

  /** What recovery makes of any files it finds: without a marker that names a server only a readable marker
      goes; otherwise the backup is put back and used up, or the named servers are written over a file that
      becomes the backup. */
  lemma RecoveredFiles(parse: AddrParser, f: Files)
    ensures Last(f, RecoverSteps(parse, f, ALL_OK))
         == if Named(parse, f.marker) == [] then f.(marker := if f.marker.Wrote? then NoMarker else f.marker)
            else if f.backup.Some? then Files(f.backup, None, NoMarker)
            else Files(Some(Rendered(Named(parse, f.marker))), f.conf, NoMarker)
  {
  }

  /** What restoring makes of them: the marker in memory counts before the one on disk, a backup counts
      before the servers either names, and without any of them 1.1.1.1 is written. */
  lemma RestoredFiles(parse: AddrParser, f: Files, mem: Option<Marker>)
    ensures
      var end := Last(f, RestoreSteps(parse, f, mem, ALL_OK));
      if mem.None? && !f.marker.Wrote? then end == f
      else if f.backup.Some? then end == Files(f.backup, None, NoMarker)
      else
        var saved := if mem.Some? then mem.value.previousServers else f.marker.marker.previousServers;
        var named := Parsed(parse, saved);
        end == Files(Some(Rendered(if named == [] then ["1.1.1.1"] else named)), f.conf, NoMarker)
  {
  }

  /** The saved strings are taken one by one: those that parse in their order, the others skipped. */
  lemma {:induction false} ParsedConcat(parse: AddrParser, a: seq<string>, b: seq<string>)
    ensures Parsed(parse, a + b) == Parsed(parse, a) + Parsed(parse, b)
  {
    if b == [] {
      assert a + b == a;
    } else {
      assert (a + b)[..|a + b| - 1] == a + b[..|b| - 1];
      ParsedConcat(parse, a, b[..|b| - 1]);
    }
  }

  lemma ParsedOne(parse: AddrParser, x: string)
    ensures Parsed(parse, [x]) == if parse(x).Some? then [parse(x).value] else []
  {
    assert [x][..0] == [];
  }

  // ---- Writes that fail ----

  /** While the file cannot be written, no call changes it or the marker, at any of its steps. */
  lemma UnwritableConf(parse: AddrParser, f: Files, mem: Option<Marker>, servers: seq<string>, o: Outcomes, k: nat)
    requires !o.confWrite
    ensures
      var apply, restore, recover :=
        ApplySteps(parse, f, servers, o), RestoreSteps(parse, f, mem, o), RecoverSteps(parse, f, o);
      && (k < |apply| ==> apply[k].conf == f.conf && apply[k].marker == f.marker)
      && (k < |restore| ==> restore[k].conf == f.conf && restore[k].marker == f.marker)
      && (Named(parse, f.marker) != [] && k < |recover| ==> recover[k].conf == f.conf && recover[k].marker == f.marker)
  {
  }

  /** If the marker could not be written and there was none before, the process can still undo its Apply byte
      for byte from memory, but the next one cannot: its recovery leaves the applied servers in force. */
  lemma UnmarkedApply(parse: AddrParser, f: Files, servers: seq<string>, last: Outcomes)
    requires Lawful(parse) && servers != [] && Addresses(parse, servers) && f.conf.Some? && f.marker.NoMarker?
    ensures
      var applied := Last(f, ApplySteps(parse, f, servers, ALL_OK.(markerWrite := false)));
      && Last(applied, RestoreSteps(parse, applied, Some(MarkerFor(parse, f, servers)), ALL_OK)) == Files(f.conf, None, NoMarker)
      && Outcome(parse, Machine(applied, None), [], last) == Some(servers)
  {
    RenderedRoundTrip(parse, servers);
    var applied := Last(f, ApplySteps(parse, f, servers, ALL_OK.(markerWrite := false)));
    assert applied == Files(Some(Rendered(servers)), f.conf, NoMarker);
    RestoredFiles(parse, applied, Some(MarkerFor(parse, f, servers)));
  }

  /** Whether Apply, a crash after k of its three file steps and a recovery leave the file as it was. A
      marker left over from earlier takes part: it decides what recovery does before Apply's own marker is
      there. */
  predicate SurvivesCrash(parse: AddrParser, f: Files, servers: seq<string>, k: nat)
    requires f.conf.Some?
  {
    if k == 0 then
      // Recovery undoes an earlier Apply, if a marker of one is left.
      || Named(parse, f.marker) == []
      || f.conf == (if f.backup.Some? then f.backup else Some(Rendered(Named(parse, f.marker))))
    else if k == 1 then
      true
    else if k == 2 then
      Named(parse, f.marker) != [] || Rendered(servers) == f.conf.value
    else
      Servers(parse, f.conf.value) != [] || Rendered(servers) == f.conf.value
  }

  /** For every existing file, leftover backup and leftover marker, and a crash after any of Apply's file
      steps, recovery leaves the file byte for byte what it was exactly under the condition above; after
      the marker, if the old file named a server, it also removes both backup and marker. */
  lemma CrashInApplyIff(parse: AddrParser, f: Files, servers: seq<string>, k: nat)
    requires Lawful(parse) && servers != [] && f.conf.Some? && k <= 3
    ensures
      var steps := ApplySteps(parse, f, servers, ALL_OK);
      var crashed := Last(f, steps[..k]);
      var end := Last(crashed, RecoverSteps(parse, crashed, ALL_OK));
      && |steps| == 3
      && (end.conf == f.conf <==> SurvivesCrash(parse, f, servers, k))
      && (k == 3 && Servers(parse, f.conf.value) != [] ==> end == Files(f.conf, None, NoMarker))
  {
    var steps := ApplySteps(parse, f, servers, ALL_OK);
    var crashed := Last(f, steps[..k]);
    assert crashed == if k == 0 then f else steps[k - 1];
    RecoveredFiles(parse, crashed);
    if k == 3 {
      var list := Servers(parse, f.conf.value);
      LinesServersAreAddresses(parse, Split(f.conf.value, '\n'));
      ParsedAddresses(parse, list);
      assert crashed == Applied(parse, f, servers);
    }
  }

  /** The state blob of the marker is the previous file only if Apply changed nothing: it is captured after
      the new file is in place. */
  lemma StateBlobIff(parse: AddrParser, f: Files, servers: seq<string>)
    requires servers != [] && f.conf.Some?
    ensures
      var applied := Last(f, ApplySteps(parse, f, servers, ALL_OK));
      && applied.marker.Wrote?
      && (applied.marker.marker.previousState == f.conf.value <==> f.conf.value == Rendered(servers))
  {
    ApplyEnds(parse, f, servers);
  }

  /** A second Apply overwrites the backup, so one Restore undoes only the last Apply. */
  lemma RestoreUndoesLastApply(parse: AddrParser, f: Files, first: seq<string>, second: seq<string>)
    requires first != [] && second != [] && f.conf.Some?
    ensures
      var f1 := Last(f, ApplySteps(parse, f, first, ALL_OK));
      var f2 := Last(f1, ApplySteps(parse, f1, second, ALL_OK));
      var f3 := Last(f2, RestoreSteps(parse, f2, None, ALL_OK));
      f3 == Files(Some(Rendered(first)), None, NoMarker)
  {
    var f1 := Last(f, ApplySteps(parse, f, first, ALL_OK));
    ApplyEnds(parse, f, first);
    ApplyThenRestore(parse, f1, second, true);
  }

  // ---- When the backup write fails ----

  /** The files after an Apply whose backup write went as given. */
  function AppliedWith(parse: AddrParser, f: Files, servers: seq<string>, backupWrite: bool): Files {
    Last(f, ApplySteps(parse, f, servers, ALL_OK.(backupWrite := backupWrite)))
  }

  /** The servers in force after the attempts and one recovery that finishes. */
  function Outcome(parse: AddrParser, start: Machine, attempts: seq<Attempt>, last: Outcomes): Option<seq<string>> {
    Current(parse, Try(parse, TryAll(parse, start, attempts), Recover(last, None)).files.conf)
  }

  /** Whatever restores and recoveries are attempted, whatever fails in them and wherever they crash, the list
      comes back. */
  ghost predicate Tolerant(parse: AddrParser, start: Machine, list: seq<string>) {
    forall attempts: seq<Attempt>, last: Outcomes ::
      last.confWrite ==> Outcome(parse, start, attempts, last) == Some(list)
  }

  /** What Apply finds decides: a backup written, or a stale one that names the same servers, or no backup
      and nothing to change. */
  predicate Recoverable(parse: AddrParser, f: Files, servers: seq<string>, list: seq<string>, backupWrite: bool) {
    || backupWrite
    || (if f.backup.Some? then Current(parse, f.backup) == Some(list) else list == servers)
  }

  lemma SafeIsTolerant(parse: AddrParser, start: Machine, list: seq<string>)
    requires Safe(parse, start, list) && Addresses(parse, list) && list != []
    ensures Tolerant(parse, start, list)
  {
    forall attempts: seq<Attempt>, last: Outcomes | last.confWrite
      ensures Outcome(parse, start, attempts, last) == Some(list)
    {
      TryAllSafe(parse, start, list, attempts);
      TrySafe(parse, TryAll(parse, start, attempts), list, Recover(last, None));
    }
  }

  /** Over a stale backup that names other servers, a plain recovery puts those in force. */
  lemma StaleBackupWins(parse: AddrParser, f: Files, servers: seq<string>, list: seq<string>, mem: Option<Marker>)
    requires Lawful(parse) && servers != [] && f.backup.Some? && Current(parse, f.conf) == Some(list)
    ensures Outcome(parse, Machine(AppliedWith(parse, f, servers, false), mem), [], ALL_OK) == Current(parse, f.backup)
  {
    LinesServersAreAddresses(parse, Split(f.conf.value, '\n'));
    ParsedAddresses(parse, list);
    var applied := AppliedWith(parse, f, servers, false);
    assert applied == Files(Some(Rendered(servers)), f.backup, Wrote(MarkerFor(parse, f, servers)));
    RecoveredFiles(parse, applied);
  }

  /** Without any backup, recovery first backs up the applied file; a crash right after that leaves a second
      recovery that puts the applied servers back and forgets the rest. */
  lemma {:induction false} FailedBackupLosesList(parse: AddrParser, f: Files, servers: seq<string>, list: seq<string>,
                                                 mem: Option<Marker>)
    requires Lawful(parse) && servers != [] && Addresses(parse, servers)
    requires Current(parse, f.conf) == Some(list) && f.backup == None
    ensures
      var start := Machine(AppliedWith(parse, f, servers, false), mem);
      var crashed := TryAll(parse, start, [Recover(ALL_OK, Some(1))]);
      && Outcome(parse, start, [Recover(ALL_OK, Some(1))], ALL_OK) == Some(servers)
      && Try(parse, crashed, Recover(ALL_OK, None)).files.marker == NoMarker
  {
    LinesServersAreAddresses(parse, Split(f.conf.value, '\n'));
    ParsedAddresses(parse, list);
    RenderedRoundTrip(parse, servers);
    var applied := AppliedWith(parse, f, servers, false);
    assert applied == Files(Some(Rendered(servers)), None, Wrote(MarkerFor(parse, f, servers)));
    var steps := RecoverSteps(parse, applied, ALL_OK);
    assert steps[..1] == [steps[0]];
    var first := Recover(ALL_OK, Some(1));
    assert [first][..0] == [];
    assert TryAll(parse, Machine(applied, mem), [first]) == Machine(applied.(backup := applied.conf), None);
  }

  /** Crash tolerance holds exactly when the backup was written, or the files were such that it was not
      needed. */
  lemma {:induction false} CrashToleranceIff(parse: AddrParser, f: Files, servers: seq<string>, list: seq<string>,
                                             mem: Option<Marker>, backupWrite: bool)
    requires Lawful(parse) && servers != [] && Addresses(parse, servers)
    requires Current(parse, f.conf) == Some(list)
    requires mem == None || mem == Some(MarkerFor(parse, f, servers))
    ensures Tolerant(parse, Machine(AppliedWith(parse, f, servers, backupWrite), mem), list)
       <==> Recoverable(parse, f, servers, list, backupWrite)
  {
    var start := Machine(AppliedWith(parse, f, servers, backupWrite), mem);
    if Recoverable(parse, f, servers, list, backupWrite) {
      LinesServersAreAddresses(parse, Split(f.conf.value, '\n'));
      RenderedRoundTrip(parse, servers);
      SafeIsTolerant(parse, start, list);
    } else if f.backup.Some? {
      StaleBackupWins(parse, f, servers, list, mem);
      assert Outcome(parse, start, [], ALL_OK) != Some(list);
    } else {
      FailedBackupLosesList(parse, f, servers, list, mem);
      assert Outcome(parse, start, [Recover(ALL_OK, Some(1))], ALL_OK) != Some(list);
    }
  }
}
