/** Replacing a file by writing a temporary file and renaming it, as the enabled-set and the licence
    cache do, with every file state a crash could leave behind. */
module AtomicFile {
  import opened Common
  import opened SupervisorModel

  /** Path to contents. */
  type Files = map<string, string>

  /** Which operations succeed; a failing write may have written some of the data. */
  datatype Plan = Plan(encode: bool, mkdir: bool, create: bool, chmod: bool, write: Option<nat>,
                       close: bool, rename: bool, remove: bool)

  /** Where a call ended. */
  datatype Exit = Done | EncodeFailed | MkdirFailed | CreateFailed | ChmodFailed | WriteFailed | CloseFailed | RenameFailed

  function ExitOf(p: Plan): Exit {
    if !p.encode then EncodeFailed
    else if !p.mkdir then MkdirFailed
    else if !p.create then CreateFailed
    else if !p.chmod then ChmodFailed
    else if p.write.Some? then WriteFailed
    else if !p.close then CloseFailed
    else if !p.rename then RenameFailed
    else Done
  }

  predicate AllSucceed(p: Plan) {
    p.encode && p.mkdir && p.create && p.chmod && p.write.None? && p.close && p.rename
  }

  predicate TempCreated(e: Exit) {
    e !in {EncodeFailed, MkdirFailed, CreateFailed}
  }

  /** How many bytes reach the temporary file. */
  function BytesWritten(p: Plan, data: string): nat {
    if !p.chmod then 0
    else match p.write
      case None => |data|
      case Some(n) => if n < |data| then n else |data|
  }

  function Removed(fs: Files, tmp: string, p: Plan): seq<Files> {
    if p.remove then [fs - {tmp}] else [fs]
  }

  /** The temporary file as the bytes arrive one after the other. */
  function Growing(fs: Files, tmp: string, data: string, n: nat): seq<Files>
    requires n <= |data|
  {
    seq(n + 1, j requires 0 <= j <= n => fs[tmp := data[..j]])
  }

  /** The file states of one call, in order. `tidy` says whether a failed rename also removes the
      temporary file: the licence cache does, the enabled-set does not. */
  function States(fs: Files, dest: string, tmp: string, data: string, p: Plan, tidy: bool): seq<Files> {
    var e := ExitOf(p);
    if !TempCreated(e) then []
    else
      var n := BytesWritten(p, data);
      var grown := fs[tmp := data[..n]];
      Growing(fs, tmp, data, n) +
      (if e == Done then [(grown - {tmp})[dest := data]]
       else if e == RenameFailed && !tidy then []
       else Removed(grown, tmp, p))
  }

  function Final(fs: Files, states: seq<Files>): Files {
    if states == [] then fs else states[|states| - 1]
  }

  function Get(fs: Files, path: string): Option<string> {
    if path in fs then Some(fs[path]) else None
  }

  /** A name for the temporary file that is not in use. */
  predicate FreshTemp(fs: Files, dest: string, tmp: string) {
    tmp !in fs && tmp != dest
  }

  /** Whatever state a crash leaves, the destination is exactly the old file or exactly the new one,
      and it is the new one only in the last state of a call all of whose operations succeed; no other file
      is touched. */
  lemma CrashLeavesOldOrNew(fs: Files, dest: string, tmp: string, data: string, p: Plan, tidy: bool, k: nat)
    requires FreshTemp(fs, dest, tmp) && k < |States(fs, dest, tmp, data, p, tidy)|
    ensures
      var states := States(fs, dest, tmp, data, p, tidy);
      && (if AllSucceed(p) && k == |states| - 1
          then Get(states[k], dest) == Some(data)
          else Get(states[k], dest) == Get(fs, dest))
      && (forall q :: q != dest && q != tmp ==> Get(states[k], q) == Get(fs, q))
  {
    var n := BytesWritten(p, data);
    var states := States(fs, dest, tmp, data, p, tidy);
    if k <= n {
      assert states[k] == fs[tmp := data[..k]];
    } else {
      assert data[..|data|] == data;
    }
  }

  /** When the call returns: success means the new file and no temporary; an error leaves the old file,
      and the temporary stays behind exactly when removing it failed or was not attempted. */
  lemma ReturnLeaves(fs: Files, dest: string, tmp: string, data: string, p: Plan, tidy: bool)
    requires FreshTemp(fs, dest, tmp)
    ensures
      var end := Final(fs, States(fs, dest, tmp, data, p, tidy));
      && (ExitOf(p) == Done <==> AllSucceed(p))
      && Get(end, dest) == (if AllSucceed(p) then Some(data) else Get(fs, dest))
      && (tmp in end <==> p.encode && p.mkdir && p.create && !AllSucceed(p)
                          && (!p.remove || (!tidy && AllSucceed(p.(rename := true)))))
  {
    var states := States(fs, dest, tmp, data, p, tidy);
    if states != [] {
      CrashLeavesOldOrNew(fs, dest, tmp, data, p, tidy, |states| - 1);
    }
  }

  // ---- The enabled-set file ----

  /** Encoding and decoding are library routines; decoding undoes encoding. */
  datatype Codec<!T> = Codec(encode: T -> string, decode: string -> Option<T>)

  ghost predicate LawfulCodec<T(!new)>(c: Codec<T>) {
    forall x :: c.decode(c.encode(x)) == Some(x)
  }

  /** The state file as the supervisor reads it. */
  function DiskOf(c: Codec<seq<string>>, fs: Files, path: string): Disk {
    if path !in fs then Missing
    else match c.decode(fs[path])
      case None => Unreadable
      case Some(list) => Holds(list)
  }

  /** Saving is the atomic write the supervisor model assumes: after a crash anywhere the file reads as
      the old list or as the new one, and on return as the new one exactly on success. */
  lemma SaveIsAtomic(c: Codec<seq<string>>, fs: Files, path: string, tmp: string, enabled: seq<string>, p: Plan, k: nat)
    requires LawfulCodec(c) && FreshTemp(fs, path, tmp)
    ensures
      var states := States(fs, path, tmp, c.encode(enabled), p, false);
      && DiskOf(c, Final(fs, states), path) == Persisted(DiskOf(c, fs, path), enabled, AllSucceed(p))
      && (k < |states| ==> DiskOf(c, states[k], path) in {DiskOf(c, fs, path), Holds(enabled)})
  {
    var data := c.encode(enabled);
    var states := States(fs, path, tmp, data, p, false);
    ReturnLeaves(fs, path, tmp, data, p, false);
    if k < |states| {
      CrashLeavesOldOrNew(fs, path, tmp, data, p, false, k);
    }
  }

  // ---- The file operations themselves ----

  class FileSystem {
    var files: Files
    var log: seq<Files>

    constructor (files: Files)
      ensures this.files == files && log == []
    {
      this.files, log := files, [];
    }

    method Touch(fs: Files)
      modifies this
      ensures files == fs && log == old(log) + [fs]
    {
      files, log := fs, log + [fs];
    }

    /** Write `n` bytes of the data to the temporary file, byte by byte. */
    method Write(tmp: string, data: string, n: nat, ghost before: Files)
      requires n <= |data| && files == before[tmp := ""]
      modifies this
      ensures files == before[tmp := data[..n]]
      ensures |old(log)| <= |log| && log[..|old(log)|] == old(log)
      ensures [old(files)] + log[|old(log)|..] == Growing(before, tmp, data, n)
    {
      var j := 0;
      while j < n
        invariant 0 <= j <= n
        invariant files == before[tmp := data[..j]]
        invariant |log| == |old(log)| + j && log[..|old(log)|] == old(log)
        invariant [old(files)] + log[|old(log)|..] == Growing(before, tmp, data, j)
      {
        ghost var earlier := log;
        Touch(files[tmp := data[..j + 1]]);
        j := j + 1;
        assert files == before[tmp := data[..j]];
        assert log[|old(log)|..] == earlier[|old(log)|..] + [files];
        assert Growing(before, tmp, data, j) == Growing(before, tmp, data, j - 1) + [files];
      }
    }

    method WriteAll(tmp: string, data: string, p: Plan, ghost before: Files, ghost earlier: seq<Files>)
      requires files == before[tmp := ""] && log == earlier + [files]
      modifies this
      ensures files == before[tmp := data[..BytesWritten(p, data)]]
      ensures log == earlier + Growing(before, tmp, data, BytesWritten(p, data))
    {
      ghost var created := log;
      Write(tmp, data, BytesWritten(p, data), before);
      assert log == log[..|created|] + log[|created|..];
    }

    method Remove(tmp: string, ok: bool)
      modifies this
      ensures files == (if ok then old(files) - {tmp} else old(files)) && log == old(log) + [files]
    {
      Touch(if ok then files - {tmp} else files);
    }

    /** Write a temporary file, then rename it over the destination, cleaning up on errors. */
    method Replace(dest: string, tmp: string, data: string, p: Plan, tidy: bool) returns (e: Exit)
      requires FreshTemp(files, dest, tmp)
      modifies this
      ensures e == ExitOf(p)
      ensures log == old(log) + States(old(files), dest, tmp, data, p, tidy)
      ensures files == Final(old(files), States(old(files), dest, tmp, data, p, tidy))
    {
      ghost var before := files;
      if !p.encode {
        return EncodeFailed;
      }
      if !p.mkdir {
        return MkdirFailed;
      }
      if !p.create {
        return CreateFailed;
      }
      Touch(files[tmp := ""]);
      if !p.chmod {
        assert Growing(before, tmp, data, 0) == [files];
        assert data[..0] == "";
        Remove(tmp, p.remove);
        return ChmodFailed;
      }
      WriteAll(tmp, data, p, before, old(log));
      if p.write.Some? {
        Remove(tmp, p.remove);
        return WriteFailed;
      }
      if !p.close {
        Remove(tmp, p.remove);
        return CloseFailed;
      }
      if !p.rename {
        if tidy {
          Remove(tmp, p.remove);
        }
        return RenameFailed;
      }
      Touch((files - {tmp})[dest := files[tmp]]);
      assert data[..|data|] == data;
      return Done;
    }
  }
}
