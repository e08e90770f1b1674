/** The resolver object. `log` records the files after every file operation, so that the states a crash
    could leave behind are exactly its elements. */
module ResolverObject {
  import opened Common
  import opened ResolvConf
  import opened ResolverModel

  class Resolver {
    const parse: AddrParser
    var files: Files
    var mem: Option<Marker>
    var log: seq<Files>

    constructor (parse: AddrParser, files: Files)
      ensures this.parse == parse && this.files == files && mem == None && log == []
    {
      this.parse, this.files := parse, files;
      mem, log := None, [];
    }

    /** One file operation has left the files like this. */
    method Touch(f: Files)
      modifies this`files, this`log
      ensures files == f && log == old(log) + [f]
    {
      files, log := f, log + [f];
    }

    /** The current servers, or none if the file is missing or names none. */
    method CurrentServers() returns (servers: Option<seq<string>>)
      ensures servers == Current(parse, files.conf)
    {
      if files.conf.None? {
        return None;
      }
      var found := ReadServers(parse, files.conf.value);
      servers := if found == [] then None else Some(found);
    }

    method ApplyViaResolvConf(servers: seq<string>, o: Outcomes) returns (ok: bool)
      modifies this`files, this`log
      ensures log == old(log) + ReplaceConf(old(files), servers, o)
      ensures files == ReplaceConf(old(files), servers, o)[1]
      ensures ok == o.confWrite
    {
      if files.conf.Some? && o.backupWrite {
        Touch(files.(backup := files.conf));
      } else {
        Touch(files);
      }
      var content := WriteServers(servers);
      if !o.confWrite {
        Touch(files);
        return false;
      }
      Touch(files.(conf := Some(content)));
      return true;
    }

    method RestoreViaResolvConf(servers: seq<string>, o: Outcomes) returns (ok: bool)
      modifies this`files, this`log
      ensures log == old(log) + RestoreConf(old(files), servers, o)
      ensures files == Last(old(files), RestoreConf(old(files), servers, o))
      ensures ok == o.confWrite
    {
      if files.backup.None? {
        ok := ApplyViaResolvConf(servers, o);
        return;
      }
      if !o.confWrite {
        Touch(files);
        return false;
      }
      Touch(files.(conf := files.backup));
      Touch(if o.backupRemove then files.(backup := None) else files);
      return true;
    }

    method ParseSaved(saved: seq<string>) returns (servers: seq<string>)
      ensures servers == Parsed(parse, saved)
    {
      servers := [];
      for i := 0 to |saved|
        invariant servers == Parsed(parse, saved[..i])
      {
        assert saved[..i + 1][..i] == saved[..i];
        var addr := parse(saved[i]);
        if addr.Some? {
          servers := servers + [addr.value];
        }
      }
      assert saved[..|saved|] == saved;
    }

    /** Set the system servers, leaving a marker for recovery; a failing marker write is tolerated. */
    method Apply(servers: seq<string>, o: Outcomes) returns (ok: bool)
      modifies this
      ensures log == old(log) + ApplySteps(parse, old(files), servers, o)
      ensures files == Last(old(files), ApplySteps(parse, old(files), servers, o))
      ensures ok <==> servers != [] && o.confWrite
      ensures mem == if ok then Some(MarkerFor(parse, old(files), servers)) else old(mem)
    {
      if servers == [] {
        return false;
      }
      var current := CurrentServers();
      ok := ApplyViaResolvConf(servers, o);
      if !ok {
        return;
      }
      var marker := Marker(Known(current), files.conf.value);
      Touch(if o.markerWrite then files.(marker := Wrote(marker)) else files);
      mem := Some(marker);
    }

    /** Put the previous servers back, from memory or from the marker on disk. */
    method Restore(o: Outcomes) returns (ok: bool)
      modifies this
      ensures log == old(log) + RestoreSteps(parse, old(files), old(mem), o)
      ensures files == Last(old(files), RestoreSteps(parse, old(files), old(mem), o))
      ensures ok <==> old(Saved(files, mem)).Some? && o.confWrite
      ensures mem == if ok then None else old(Saved(files, mem))
    {
      if mem.None? {
        mem := ReadMarker(files.marker);
        if mem.None? {
          return false;
        }
      }
      var servers := ParseSaved(mem.value.previousServers);
      if servers == [] {
        servers := [FALLBACK];
      }
      ok := RestoreViaResolvConf(servers, o);
      if !ok {
        return;
      }
      Touch(DeleteMarker(files, o));
      mem := None;
    }

    /** After a crash: restore if a marker is found and names servers, then remove the marker. */
    method RecoverFromCrash(o: Outcomes) returns (ok: bool)
      modifies this
      ensures log == old(log) + RecoverSteps(parse, old(files), o)
      ensures files == Last(old(files), RecoverSteps(parse, old(files), o))
      ensures mem == old(mem)
      ensures ok <==> (old(files).marker.Wrote? ==>
        o.markerRemove && (Parsed(parse, old(files).marker.marker.previousServers) == [] || o.confWrite))
      ensures ok && old(files).marker.Wrote? ==> files.marker == NoMarker
    {
      var marker := ReadMarker(files.marker);
      if marker.None? {
        return true;
      }
      var servers := ParseSaved(marker.value.previousServers);
      if servers != [] {
        ok := RestoreViaResolvConf(servers, o);
        if !ok {
          return;
        }
      }
      Touch(DeleteMarker(files, o));
      return o.markerRemove;
    }
  }
}
