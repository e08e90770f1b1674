/** Command trees on their way from a module to the command line: compiled-in modules go straight to the
    daemon's wire form, external plugins through the plugin's wire form and back first. */
module Commands {
  import opened Common

  newtype int32 = x: int | -0x8000_0000 <= x <= 0x7fff_ffff

  const MAX_INT32 := 0x7fff_ffff
  const MIN_INT32 := -0x8000_0000

  datatype SdkFlag = SdkFlag(name: string, shorthand: string, usage: string, default_: string, kind: string)
  datatype PluginFlag = PluginFlag(name: string, shorthand: string, usage: string, default_: string, kind: string)
  datatype DaemonFlag = DaemonFlag(name: string, shorthand: string, usage: string, default_: string, kind: string)

  datatype SdkCommand = SdkCommand(name: string, use: string, short: string, flags: seq<SdkFlag>,
                                   subcommands: seq<SdkCommand>, tray: bool, minArgs: int, maxArgs: int)
  datatype PluginCommand = PluginCommand(name: string, use: string, short: string, flags: seq<PluginFlag>,
                                         subcommands: seq<PluginCommand>, tray: bool, minArgs: int32, maxArgs: int32)
  datatype DaemonCommand = DaemonCommand(name: string, use: string, short: string, flags: seq<DaemonFlag>,
                                         subcommands: seq<DaemonCommand>, tray: bool, minArgs: int32, maxArgs: int32)

  /** Saturate rather than wrap. */
  function Clamp(v: int): int32 {
    if v > MAX_INT32 then MAX_INT32 as int32
    else if v < MIN_INT32 then MIN_INT32 as int32
    else v as int32
  }

  function FlagToPlugin(f: SdkFlag): PluginFlag {
    PluginFlag(f.name, f.shorthand, f.usage, f.default_, f.kind)
  }

  function FlagToSdk(f: PluginFlag): SdkFlag {
    SdkFlag(f.name, f.shorthand, f.usage, f.default_, f.kind)
  }

  function FlagToDaemon(f: SdkFlag): DaemonFlag {
    DaemonFlag(f.name, f.shorthand, f.usage, f.default_, f.kind)
  }

  function ToPlugin(c: SdkCommand): PluginCommand {
    PluginCommand(c.name, c.use, c.short,
                  seq(|c.flags|, i requires 0 <= i < |c.flags| => FlagToPlugin(c.flags[i])),
                  seq(|c.subcommands|, i requires 0 <= i < |c.subcommands| => ToPlugin(c.subcommands[i])),
                  c.tray, Clamp(c.minArgs), Clamp(c.maxArgs))
  }

  function ToSdk(c: PluginCommand): SdkCommand {
    SdkCommand(c.name, c.use, c.short,
               seq(|c.flags|, i requires 0 <= i < |c.flags| => FlagToSdk(c.flags[i])),
               seq(|c.subcommands|, i requires 0 <= i < |c.subcommands| => ToSdk(c.subcommands[i])),
               c.tray, c.minArgs as int, c.maxArgs as int)
  }

  function ToDaemon(c: SdkCommand): DaemonCommand {
    DaemonCommand(c.name, c.use, c.short,
                  seq(|c.flags|, i requires 0 <= i < |c.flags| => FlagToDaemon(c.flags[i])),
                  seq(|c.subcommands|, i requires 0 <= i < |c.subcommands| => ToDaemon(c.subcommands[i])),
                  c.tray, Clamp(c.minArgs), Clamp(c.maxArgs))
  }

  // ---- What the conversions mean ----

  /** The same tree with every argument bound saturated. */
  function Saturated(c: SdkCommand): SdkCommand {
    c.(subcommands := seq(|c.subcommands|, i requires 0 <= i < |c.subcommands| => Saturated(c.subcommands[i])),
       minArgs := Clamp(c.minArgs) as int, maxArgs := Clamp(c.maxArgs) as int)
  }

  predicate FitsInt32(v: int) {
    MIN_INT32 <= v <= MAX_INT32
  }

  function Distance(a: int, b: int): nat {
    if a < b then b - a else a - b
  }

  /** Saturating goes to the nearest 32-bit value. */
  lemma ClampNearest(v: int, w: int32)
    ensures Distance(v, Clamp(v) as int) <= Distance(v, w as int)
  {
  }

  /** Every argument bound in the tree fits 32 bits. */
  predicate Fits(c: SdkCommand) {
    && FitsInt32(c.minArgs) && FitsInt32(c.maxArgs)
    && forall i :: 0 <= i < |c.subcommands| ==> Fits(c.subcommands[i])
  }

  /** What a daemon command says, read back as a module's command. */
  function Meaning(c: DaemonCommand): SdkCommand {
    SdkCommand(c.name, c.use, c.short,
               seq(|c.flags|, i requires 0 <= i < |c.flags| =>
                 SdkFlag(c.flags[i].name, c.flags[i].shorthand, c.flags[i].usage, c.flags[i].default_, c.flags[i].kind)),
               seq(|c.subcommands|, i requires 0 <= i < |c.subcommands| => Meaning(c.subcommands[i])),
               c.tray, c.minArgs as int, c.maxArgs as int)
  }

  /** The trip over the plugin wire saturates the bounds and changes nothing else. */
  lemma {:induction false} PluginRoundTrip(c: SdkCommand)
    ensures ToSdk(ToPlugin(c)) == Saturated(c)
  {
    forall i | 0 <= i < |c.subcommands|
      ensures ToSdk(ToPlugin(c.subcommands[i])) == Saturated(c.subcommands[i])
    {
      PluginRoundTrip(c.subcommands[i]);
    }
    var back := ToSdk(ToPlugin(c));
    assert back.flags == c.flags;
    assert back.subcommands == Saturated(c).subcommands;
  }

  /** So does the daemon's wire form. */
  lemma {:induction false} DaemonMeaning(c: SdkCommand)
    ensures Meaning(ToDaemon(c)) == Saturated(c)
  {
    forall i | 0 <= i < |c.subcommands|
      ensures Meaning(ToDaemon(c.subcommands[i])) == Saturated(c.subcommands[i])
    {
      DaemonMeaning(c.subcommands[i]);
    }
    var back := Meaning(ToDaemon(c));
    assert back.flags == c.flags;
    assert back.subcommands == Saturated(c).subcommands;
  }

  lemma {:induction false} SaturatedToDaemon(c: SdkCommand)
    ensures ToDaemon(Saturated(c)) == ToDaemon(c)
  {
    forall i | 0 <= i < |c.subcommands|
      ensures ToDaemon(Saturated(c.subcommands[i])) == ToDaemon(c.subcommands[i])
    {
      SaturatedToDaemon(c.subcommands[i]);
    }
    assert ToDaemon(Saturated(c)).flags == ToDaemon(c).flags;
    assert ToDaemon(Saturated(c)).subcommands == ToDaemon(c).subcommands;
  }

  predicate SameFlag(p: PluginFlag, d: DaemonFlag) {
    p.name == d.name && p.shorthand == d.shorthand && p.usage == d.usage && p.default_ == d.default_ && p.kind == d.kind
  }

  /** The two wire forms carry the same values, field by field and at every depth. */
  predicate SameWire(p: PluginCommand, d: DaemonCommand) {
    && p.name == d.name && p.use == d.use && p.short == d.short
    && p.tray == d.tray && p.minArgs == d.minArgs && p.maxArgs == d.maxArgs
    && |p.flags| == |d.flags| && (forall i :: 0 <= i < |p.flags| ==> SameFlag(p.flags[i], d.flags[i]))
    && |p.subcommands| == |d.subcommands|
    && forall i :: 0 <= i < |p.subcommands| ==> SameWire(p.subcommands[i], d.subcommands[i])
  }

  lemma {:induction false} PluginMeaning(c: SdkCommand)
    ensures SameWire(ToPlugin(c), ToDaemon(c))
  {
    forall i | 0 <= i < |c.subcommands|
      ensures SameWire(ToPlugin(c.subcommands[i]), ToDaemon(c.subcommands[i]))
    {
      PluginMeaning(c.subcommands[i]);
    }
  }

  /** An external plugin's tree reaches the daemon's wire form identical to a compiled-in one's. */
  lemma {:induction false} PluginIndistinguishable(c: SdkCommand)
    ensures ToDaemon(ToSdk(ToPlugin(c))) == ToDaemon(c)
  {
    PluginRoundTrip(c);
    SaturatedToDaemon(c);
  }

  lemma {:induction false} SaturatedIff(c: SdkCommand)
    ensures Saturated(c) == c <==> Fits(c)
  {
    forall i | 0 <= i < |c.subcommands|
      ensures Saturated(c.subcommands[i]) == c.subcommands[i] <==> Fits(c.subcommands[i])
    {
      SaturatedIff(c.subcommands[i]);
    }
    if Fits(c) {
      assert Saturated(c).subcommands == c.subcommands;
    }
    if Saturated(c) == c {
      assert forall i :: 0 <= i < |c.subcommands| ==> Saturated(c).subcommands[i] == c.subcommands[i];
    }
  }

  /** The plugin trip is the identity exactly on trees whose bounds fit 32 bits. */
  lemma {:induction false} PluginRoundTripIff(c: SdkCommand)
    ensures ToSdk(ToPlugin(c)) == c <==> Fits(c)
  {
    PluginRoundTrip(c);
    SaturatedIff(c);
  }

  // ---- Argument checking on the command line ----

  /** The command line's decision on a number of arguments; a negative maximum means no limit. */
  predicate Accepts(minArgs: int, maxArgs: int, n: nat) {
    !(n < minArgs) && !(maxArgs >= 0 && n > maxArgs)
  }

  predicate SameDecision(minArgs: int, maxArgs: int, n: nat) {
    Accepts(Clamp(minArgs) as int, Clamp(maxArgs) as int, n) <==> Accepts(minArgs, maxArgs, n)
  }

  /** Saturating never changes the decision exactly for counts below the largest 32-bit value. */
  lemma ClampPreservesDecisionIff(n: nat)
    ensures (forall minArgs, maxArgs :: SameDecision(minArgs, maxArgs, n)) <==> n < MAX_INT32
  {
    if n >= MAX_INT32 {
      assert !SameDecision(n + 1, -1, n);
    }
  }

  /** The command reached by following child positions. */
  function AtPath(c: SdkCommand, path: seq<nat>): Option<SdkCommand> {
    if path == [] then Some(c)
    else if path[0] < |c.subcommands| then AtPath(c.subcommands[path[0]], path[1..])
    else None
  }

  function DaemonAtPath(c: DaemonCommand, path: seq<nat>): Option<DaemonCommand> {
    if path == [] then Some(c)
    else if path[0] < |c.subcommands| then DaemonAtPath(c.subcommands[path[0]], path[1..])
    else None
  }

  /** At every depth: the daemon's tree has a command exactly where the module's has, it is the converted
      one, and it accepts exactly the argument counts from the module's minimum up to its maximum, a negative
      maximum meaning none. */
  lemma {:induction false} EveryCommandDecides(c: SdkCommand, path: seq<nat>, n: nat)
    requires n < MAX_INT32
    ensures DaemonAtPath(ToDaemon(c), path).Some? <==> AtPath(c, path).Some?
    ensures AtPath(c, path).Some? ==>
      var sdk, wire := AtPath(c, path).value, DaemonAtPath(ToDaemon(c), path).value;
      && wire == ToDaemon(sdk)
      && (Accepts(wire.minArgs as int, wire.maxArgs as int, n) <==> sdk.minArgs <= n && (sdk.maxArgs < 0 || n <= sdk.maxArgs))
  {
    if path == [] {
      ClampPreservesDecisionIff(n);
      assert SameDecision(c.minArgs, c.maxArgs, n);
    } else if path[0] < |c.subcommands| {
      EveryCommandDecides(c.subcommands[path[0]], path[1..], n);
    }
  }

  // ---- The recursive loops ----

  method CommandToDaemon(c: SdkCommand) returns (p: DaemonCommand)
    ensures p == ToDaemon(c)
    decreases c
  {
    var flags: seq<DaemonFlag> := [];
    for i := 0 to |c.flags|
      invariant |flags| == i && forall j :: 0 <= j < i ==> flags[j] == FlagToDaemon(c.flags[j])
    {
      var f := c.flags[i];
      flags := flags + [DaemonFlag(f.name, f.shorthand, f.usage, f.default_, f.kind)];
    }
    var subs: seq<DaemonCommand> := [];
    for i := 0 to |c.subcommands|
      invariant |subs| == i && forall j :: 0 <= j < i ==> subs[j] == ToDaemon(c.subcommands[j])
    {
      var sub := CommandToDaemon(c.subcommands[i]);
      subs := subs + [sub];
    }
    p := DaemonCommand(c.name, c.use, c.short, flags, subs, c.tray, Clamp(c.minArgs), Clamp(c.maxArgs));
    assert p.flags == ToDaemon(c).flags && p.subcommands == ToDaemon(c).subcommands;
  }

  method CommandToPlugin(c: SdkCommand) returns (p: PluginCommand)
    ensures p == ToPlugin(c)
    decreases c
  {
    var flags: seq<PluginFlag> := [];
    for i := 0 to |c.flags|
      invariant |flags| == i && forall j :: 0 <= j < i ==> flags[j] == FlagToPlugin(c.flags[j])
    {
      var f := c.flags[i];
      flags := flags + [PluginFlag(f.name, f.shorthand, f.usage, f.default_, f.kind)];
    }
    var subs: seq<PluginCommand> := [];
    for i := 0 to |c.subcommands|
      invariant |subs| == i && forall j :: 0 <= j < i ==> subs[j] == ToPlugin(c.subcommands[j])
    {
      var sub := CommandToPlugin(c.subcommands[i]);
      subs := subs + [sub];
    }
    p := PluginCommand(c.name, c.use, c.short, flags, subs, c.tray, Clamp(c.minArgs), Clamp(c.maxArgs));
    assert p.flags == ToPlugin(c).flags && p.subcommands == ToPlugin(c).subcommands;
  }

  method PluginToCommand(c: PluginCommand) returns (p: SdkCommand)
    ensures p == ToSdk(c)
    decreases c
  {
    var flags: seq<SdkFlag> := [];
    for i := 0 to |c.flags|
      invariant |flags| == i && forall j :: 0 <= j < i ==> flags[j] == FlagToSdk(c.flags[j])
    {
      var f := c.flags[i];
      flags := flags + [SdkFlag(f.name, f.shorthand, f.usage, f.default_, f.kind)];
    }
    var subs: seq<SdkCommand> := [];
    for i := 0 to |c.subcommands|
      invariant |subs| == i && forall j :: 0 <= j < i ==> subs[j] == ToSdk(c.subcommands[j])
    {
      var sub := PluginToCommand(c.subcommands[i]);
      subs := subs + [sub];
    }
    p := SdkCommand(c.name, c.use, c.short, flags, subs, c.tray, c.minArgs as int, c.maxArgs as int);
    assert p.flags == ToSdk(c).flags && p.subcommands == ToSdk(c).subcommands;
  }
}
