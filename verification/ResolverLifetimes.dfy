/** The resolver over any number of process lifetimes. A lifetime begins with crash recovery, may apply
    servers, may restore or recover any number of times, and ends at any moment; only the files go on. */
module ResolverLifetimes {
  import opened Common
  import opened Text
  import opened ResolvConf
  import opened ResolverModel

  /** What a lifetime does: it dies in its recovery after k file steps, or comes to the end of it and then
      does nothing, or applies servers, crashing after k file steps or returning. */
  datatype Use =
    | Dies(k: nat)
    | Idle
    | Crashes(servers: seq<string>, outcomes: Outcomes, k: nat)
    | Applies(servers: seq<string>, outcomes: Outcomes)

  /** Restores and recoveries follow, unless the process has crashed by then. */
  datatype Lifetime = Lifetime(recovery: Outcomes, use: Use, attempts: seq<Attempt>)

  /** Only what Apply is given and its writes of backup and marker are restricted; its write of the file, and
      everything in recoveries and restores, may fail. */
  predicate LifetimeOk(parse: AddrParser, l: Lifetime) {
    l.use.Crashes? || l.use.Applies? ==>
      Addresses(parse, l.use.servers) && l.use.outcomes.backupWrite && l.use.outcomes.markerWrite
  }

  function Recovered(parse: AddrParser, f: Files, l: Lifetime): Files {
    Last(f, RecoverSteps(parse, f, l.recovery))
  }

  function Upto(steps: seq<Files>, k: nat): seq<Files> {
    if k < |steps| then steps[..k] else steps
  }

  /** What the process remembers of an Apply that returned; a failed or refused one leaves nothing. */
  function Remembered(parse: AddrParser, f: Files, servers: seq<string>, o: Outcomes): Option<Marker> {
    if servers == [] || !o.confWrite then None else Some(MarkerFor(parse, f, servers))
  }

  /** The files a lifetime leaves behind. */
  function Through(parse: AddrParser, f: Files, l: Lifetime): Files {
    var g := Recovered(parse, f, l);
    match l.use
    case Dies(k) => Last(f, Upto(RecoverSteps(parse, f, l.recovery), k))
    case Idle => TryAll(parse, Machine(g, None), l.attempts).files
    case Crashes(servers, o, k) => Last(g, Upto(ApplySteps(parse, g, servers, o), k))
    case Applies(servers, o) =>
      var applied := Last(g, ApplySteps(parse, g, servers, o));
      TryAll(parse, Machine(applied, Remembered(parse, g, servers, o)), l.attempts).files
  }

  function ThroughAll(parse: AddrParser, f: Files, ls: seq<Lifetime>): Files {
    if ls == [] then f else Through(parse, ThroughAll(parse, f, ls[..|ls| - 1]), ls[|ls| - 1])
  }

  /** The lifetime's Apply got as far as the file steps. */
  predicate Touched(l: Lifetime) {
    (l.use.Applies? || (l.use.Crashes? && l.use.k > 0)) && l.use.servers != []
  }

  /** It got as far as its marker. */
  predicate Marked(l: Lifetime) {
    Touched(l) && l.use.outcomes.confWrite && (l.use.Crashes? ==> l.use.k >= 3)
  }

  /** A crash between writing the file and writing the marker, with no older marker left that would bring the
      file back. */
  predicate Exposed(parse: AddrParser, f: Files, l: Lifetime) {
    Touched(l) && l.use.outcomes.confWrite && l.use.Crashes? && l.use.k == 2 && Recovered(parse, f, l).marker.NoMarker?
  }

  /** Apply ran over a file that did not name the list, which takes a recovery that could not write it, and
      stopped before its marker; or it wrote its marker over a file naming nobody. */
  predicate Rash(parse: AddrParser, f: Files, list: seq<string>, l: Lifetime) {
    var found := Current(parse, Recovered(parse, f, l).conf);
    Touched(l) && if Marked(l) then found.None? else found != Some(list)
  }

  /** The list recovery leads back to after a lifetime: what the file named when Apply ran, once its marker
      is there; the applied servers, if exposed. */
  function ListAfter(parse: AddrParser, f: Files, list: seq<string>, l: Lifetime): seq<string> {
    if Exposed(parse, f, l) then l.use.servers
    else if Marked(l) then Known(Current(parse, Recovered(parse, f, l).conf))
    else list
  }

  function ListAfterAll(parse: AddrParser, f: Files, list: seq<string>, ls: seq<Lifetime>): seq<string> {
    if ls == [] then list
    else
      var front := ls[..|ls| - 1];
      ListAfter(parse, ThroughAll(parse, f, front), ListAfterAll(parse, f, list, front), ls[|ls| - 1])
  }

  /** Between lifetimes nothing is remembered, so a backup matters only while there is a marker. */
  predicate Leads(parse: AddrParser, f: Files, list: seq<string>) {
    && f.conf.Some?
    && f.marker != Garbled
    && (f.marker.Wrote? ==> SafeFiles(parse, f, list))
    && (f.marker.NoMarker? ==> Current(parse, f.conf) == Some(list))
  }

  lemma SafeLeads(parse: AddrParser, f: Files, list: seq<string>)
    requires SafeFiles(parse, f, list)
    ensures Leads(parse, f, list)
  {
  }

  /** Recovery keeps the files leading to the list at every step, and puts it in force if it can write. */
  lemma RecoveryLeads(parse: AddrParser, f: Files, list: seq<string>, o: Outcomes, k: nat)
    requires Leads(parse, f, list) && Addresses(parse, list) && list != []
    ensures
      var steps := RecoverSteps(parse, f, o);
      && Leads(parse, Last(f, Upto(steps, k)), list) && Leads(parse, Last(f, steps), list)
      && (o.confWrite ==> Current(parse, Last(f, steps).conf) == Some(list))
  {
    if f.marker.Wrote? {
      var m := Machine(f, None);
      TrySafe(parse, m, list, Recover(o, None));
      TrySafe(parse, m, list, Recover(o, Some(k)));
      SafeLeads(parse, Try(parse, m, Recover(o, None)).files, list);
      SafeLeads(parse, Try(parse, m, Recover(o, Some(k))).files, list);
    }
  }

  /** Without a marker, on disk or in memory, restoring and recovering do nothing. */
  lemma {:induction false} NothingToRestore(parse: AddrParser, f: Files, attempts: seq<Attempt>)
    requires f.marker.NoMarker?
    ensures TryAll(parse, Machine(f, None), attempts) == Machine(f, None)
  {
    if attempts != [] {
      NothingToRestore(parse, f, attempts[..|attempts| - 1]);
    }
  }

  lemma IdleLeads(parse: AddrParser, g: Files, list: seq<string>, attempts: seq<Attempt>)
    requires Leads(parse, g, list) && Addresses(parse, list) && list != []
    ensures Leads(parse, TryAll(parse, Machine(g, None), attempts).files, list)
  {
    if g.marker.Wrote? {
      TryAllSafe(parse, Machine(g, None), list, attempts);
      SafeLeads(parse, TryAll(parse, Machine(g, None), attempts).files, list);
    } else {
      NothingToRestore(parse, g, attempts);
    }
  }

  /** Applying over a file that names the list, with a crash after any step. */
  lemma CrashLeads(parse: AddrParser, g: Files, list: seq<string>, servers: seq<string>, o: Outcomes, k: nat)
    requires Leads(parse, g, list) && Current(parse, g.conf) == Some(list) && Addresses(parse, servers)
    requires servers != [] && o.backupWrite && o.markerWrite
    ensures
      var left := Last(g, Upto(ApplySteps(parse, g, servers, o), k));
      Leads(parse, left, if o.confWrite && k == 2 && g.marker.NoMarker? then servers else list)
  {
    RenderedRoundTrip(parse, servers);
    var steps := ApplySteps(parse, g, servers, o);
    assert steps[0] == g.(backup := g.conf);
    assert o.confWrite ==> steps[1] == Files(Some(Rendered(servers)), g.conf, g.marker) && steps[2] == Applied(parse, g, servers);
    assert !o.confWrite ==> steps == [steps[0], steps[0]];
    assert Last(g, Upto(steps, k)) == if k == 0 then g else steps[if k < |steps| then k - 1 else |steps| - 1];
  }

  /** Once its marker is there, the files lead to what Apply found. */
  lemma MarkedLeads(parse: AddrParser, g: Files, found: seq<string>, servers: seq<string>, o: Outcomes)
    requires Current(parse, g.conf) == Some(found) && servers != [] && o.backupWrite && o.markerWrite && o.confWrite
    ensures
      var steps := ApplySteps(parse, g, servers, o);
      |steps| == 3 && Safe(parse, Machine(Last(g, steps), Remembered(parse, g, servers, o)), found)
  {
    assert Last(g, ApplySteps(parse, g, servers, o)) == Applied(parse, g, servers);
  }

  lemma AppliesLeads(parse: AddrParser, g: Files, found: seq<string>, servers: seq<string>, o: Outcomes, attempts: seq<Attempt>)
    requires Current(parse, g.conf) == Some(found) && Addresses(parse, found) && found != []
    requires servers != [] && o.backupWrite && o.markerWrite && o.confWrite
    ensures
      var applied := Last(g, ApplySteps(parse, g, servers, o));
      Leads(parse, TryAll(parse, Machine(applied, Remembered(parse, g, servers, o)), attempts).files, found)
  {
    var start := Machine(Last(g, ApplySteps(parse, g, servers, o)), Remembered(parse, g, servers, o));
    MarkedLeads(parse, g, found, servers, o);
    TryAllSafe(parse, start, found, attempts);
    SafeLeads(parse, TryAll(parse, start, attempts).files, found);
  }

  /** An Apply that could not write the file has only made a backup of it. */
  lemma FailedApplyLeads(parse: AddrParser, g: Files, list: seq<string>, servers: seq<string>, o: Outcomes, attempts: seq<Attempt>)
    requires Leads(parse, g, list) && Current(parse, g.conf) == Some(list) && Addresses(parse, list) && list != []
    requires servers != [] && o.backupWrite && !o.confWrite
    ensures
      var applied := Last(g, ApplySteps(parse, g, servers, o));
      Leads(parse, TryAll(parse, Machine(applied, Remembered(parse, g, servers, o)), attempts).files, list)
  {
    assert Last(g, ApplySteps(parse, g, servers, o)) == g.(backup := g.conf);
    IdleLeads(parse, g.(backup := g.conf), list, attempts);
  }

  lemma FoundAddresses(parse: AddrParser, conf: Option<string>)
    requires Lawful(parse)
    ensures Addresses(parse, Known(Current(parse, conf)))
  {
    if conf.Some? {
      LinesServersAreAddresses(parse, Split(conf.value, '\n'));
    }
  }

  /** Lifetimes that apply. */
  lemma {:induction false} ApplyingLeads(parse: AddrParser, f: Files, list: seq<string>, l: Lifetime)
    requires Lawful(parse) && Leads(parse, f, list) && Addresses(parse, list) && list != []
    requires LifetimeOk(parse, l) && Touched(l) && !Rash(parse, f, list, l)
    ensures Leads(parse, Through(parse, f, l), ListAfter(parse, f, list, l))
  {
    RecoveryLeads(parse, f, list, l.recovery, 0);
    var g, servers, o := Recovered(parse, f, l), l.use.servers, l.use.outcomes;
    if Marked(l) {
      FoundAddresses(parse, g.conf);
      var found := Known(Current(parse, g.conf));
      if l.use.Applies? {
        AppliesLeads(parse, g, found, servers, o, l.attempts);
      } else {
        MarkedLeads(parse, g, found, servers, o);
        SafeLeads(parse, Last(g, ApplySteps(parse, g, servers, o)), found);
      }
    } else if l.use.Applies? {
      FailedApplyLeads(parse, g, list, servers, o, l.attempts);
    } else {
      CrashLeads(parse, g, list, servers, o, l.use.k);
    }
  }

  /** One lifetime, whatever fails in its recoveries and restores, leads back to the same list, unless it was
      exposed or ran Apply over a file that did not name it. */
  lemma {:induction false} LifetimeLeads(parse: AddrParser, f: Files, list: seq<string>, l: Lifetime)
    requires Lawful(parse) && Leads(parse, f, list) && Addresses(parse, list) && list != []
    requires LifetimeOk(parse, l) && !Rash(parse, f, list, l)
    ensures
      var next := ListAfter(parse, f, list, l);
      Leads(parse, Through(parse, f, l), next) && Addresses(parse, next) && next != []
  {
    FoundAddresses(parse, Recovered(parse, f, l).conf);
    if Touched(l) {
      ApplyingLeads(parse, f, list, l);
    } else {
      RecoveryLeads(parse, f, list, l.recovery, if l.use.Dies? then l.use.k else 0);
      if l.use.Idle? || l.use.Applies? {
        IdleLeads(parse, Recovered(parse, f, l), list, l.attempts);
      }
    }
  }

  /** No lifetime of the sequence is rash. */
  predicate NeverRash(parse: AddrParser, f: Files, list: seq<string>, ls: seq<Lifetime>) {
    ls == [] ||
    var front := ls[..|ls| - 1];
    && NeverRash(parse, f, list, front)
    && !Rash(parse, ThroughAll(parse, f, front), ListAfterAll(parse, f, list, front), ls[|ls| - 1])
  }

  lemma {:induction false} LifetimesLead(parse: AddrParser, f: Files, list: seq<string>, ls: seq<Lifetime>)
    requires Lawful(parse) && Leads(parse, f, list) && Addresses(parse, list) && list != []
    requires (forall k :: 0 <= k < |ls| ==> LifetimeOk(parse, ls[k])) && NeverRash(parse, f, list, ls)
    ensures
      var end := ListAfterAll(parse, f, list, ls);
      Leads(parse, ThroughAll(parse, f, ls), end) && Addresses(parse, end) && end != []
  {
    if ls != [] {
      var front := ls[..|ls| - 1];
      LifetimesLead(parse, f, list, front);
      LifetimeLeads(parse, ThroughAll(parse, f, front), ListAfterAll(parse, f, list, front), ls[|ls| - 1]);
    }
  }

  lemma LeadsToAddresses(parse: AddrParser, f: Files, list: seq<string>)
    requires Lawful(parse) && Leads(parse, f, list)
    ensures Addresses(parse, list) && list != []
  {
    FoundAddresses(parse, f.conf);
    FoundAddresses(parse, f.backup);
  }

  /** From files that lead to a list, such as a file naming it and no marker, after any sequence of lifetimes
      none of which is rash, the next recovery that finishes and can write the file puts in force the list
      followed through the lifetimes. */
  lemma {:induction false} ListOverLifetimes(parse: AddrParser, f: Files, list: seq<string>, ls: seq<Lifetime>, last: Outcomes)
    requires Lawful(parse) && Leads(parse, f, list) && last.confWrite
    requires (forall k :: 0 <= k < |ls| ==> LifetimeOk(parse, ls[k])) && NeverRash(parse, f, list, ls)
    ensures
      var left := ThroughAll(parse, f, ls);
      Current(parse, Last(left, RecoverSteps(parse, left, last)).conf) == Some(ListAfterAll(parse, f, list, ls))
  {
    LeadsToAddresses(parse, f, list);
    LifetimesLead(parse, f, list, ls);
    RecoveryLeads(parse, ThroughAll(parse, f, ls), ListAfterAll(parse, f, list, ls), last, 0);
  }

  // ---- When the list stays the same ----

  /** No Apply is exposed, and none runs after a recovery that could not write the file. */
  predicate Careful(parse: AddrParser, f: Files, ls: seq<Lifetime>) {
    ls == [] ||
    var front, last := ls[..|ls| - 1], ls[|ls| - 1];
    && Careful(parse, f, front)
    && !Exposed(parse, ThroughAll(parse, f, front), last)
    && (Touched(last) ==> last.recovery.confWrite)
  }

  lemma CarefulLifetime(parse: AddrParser, f: Files, list: seq<string>, l: Lifetime)
    requires Leads(parse, f, list) && Addresses(parse, list) && list != []
    requires !Exposed(parse, f, l) && (Touched(l) ==> l.recovery.confWrite)
    ensures !Rash(parse, f, list, l) && ListAfter(parse, f, list, l) == list
  {
    RecoveryLeads(parse, f, list, l.recovery, 0);
  }

  lemma {:induction false} CarefulList(parse: AddrParser, f: Files, list: seq<string>, ls: seq<Lifetime>)
    requires Lawful(parse) && Leads(parse, f, list) && Addresses(parse, list) && list != []
    requires (forall k :: 0 <= k < |ls| ==> LifetimeOk(parse, ls[k])) && Careful(parse, f, ls)
    ensures NeverRash(parse, f, list, ls) && ListAfterAll(parse, f, list, ls) == list
  {
    if ls != [] {
      var front, last := ls[..|ls| - 1], ls[|ls| - 1];
      CarefulList(parse, f, list, front);
      LifetimesLead(parse, f, list, front);
      CarefulLifetime(parse, ThroughAll(parse, f, front), list, last);
    }
  }

  /** The original servers come back after any number of lifetimes, whatever else fails or crashes, as long as
      no Apply is exposed and none runs after a recovery that could not write the file. */
  lemma OriginalServersReturn(parse: AddrParser, f: Files, list: seq<string>, ls: seq<Lifetime>, last: Outcomes)
    requires Lawful(parse) && Leads(parse, f, list) && last.confWrite
    requires (forall k :: 0 <= k < |ls| ==> LifetimeOk(parse, ls[k])) && Careful(parse, f, ls)
    ensures
      var left := ThroughAll(parse, f, ls);
      Current(parse, Last(left, RecoverSteps(parse, left, last)).conf) == Some(list)
  {
    LeadsToAddresses(parse, f, list);
    CarefulList(parse, f, list, ls);
    ListOverLifetimes(parse, f, list, ls, last);
  }

  // ---- Both conditions are needed ----

  /** One exposed lifetime is enough: the applied servers stay in force through every later recovery. */
  lemma ExposedLosesList(parse: AddrParser, f: Files, servers: seq<string>, o: Outcomes)
    requires Lawful(parse) && f.marker.NoMarker? && f.conf.Some? && servers != [] && Addresses(parse, servers)
    ensures
      var l := Lifetime(o, Crashes(servers, ALL_OK, 2), []);
      var left := Through(parse, f, l);
      && Exposed(parse, f, l)
      && Current(parse, Last(left, RecoverSteps(parse, left, o)).conf) == Some(servers)
  {
    RenderedRoundTrip(parse, servers);
  }

  /** So is one Apply, finished or not, over a file that recovery could not write back: whatever that file
      named takes the place of the list. */
  lemma {:induction false} RashLosesList(parse: AddrParser, f: Files, list: seq<string>, found: seq<string>, servers: seq<string>, k: nat)
    requires Lawful(parse) && Leads(parse, f, list) && f.marker.Wrote?
    requires Current(parse, f.conf) == Some(found) && found != list && servers != [] && k > 0
    ensures
      var l := Lifetime(ALL_OK.(confWrite := false), Crashes(servers, ALL_OK, k), []);
      var left := Through(parse, f, l);
      Current(parse, Last(left, RecoverSteps(parse, left, ALL_OK)).conf) == Some(found)
  {
    LeadsToAddresses(parse, f, list);
    ParsedAddresses(parse, list);
    FoundAddresses(parse, f.conf);
    ParsedAddresses(parse, found);
    var l := Lifetime(ALL_OK.(confWrite := false), Crashes(servers, ALL_OK, k), []);
    assert Recovered(parse, f, l) == f;
    var steps := ApplySteps(parse, f, servers, ALL_OK);
    var left := Through(parse, f, l);
    assert left == steps[if k < 3 then k - 1 else 2];
    assert left.backup == f.conf;
    RecoveredFiles(parse, left);
  }
}
