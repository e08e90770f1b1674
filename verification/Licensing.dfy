/** The licence client: an in-memory cache of the last response, mirrored to disk on a best-effort basis
    and read back by the next process. */
module Licensing {
  import opened Common
  import opened AtomicFile

  datatype Feature = Feature(name: string, entitled: bool)

  /** The server's answer; whether it calls the licence valid plays no part in caching. */
  datatype Response = Response(valid: bool, tier: string, features: seq<Feature>)

  datatype Cache = Cache(tier: string, features: map<string, bool>)

  datatype CacheFile = NoFile | Corrupt | Cached(cache: Cache)

  datatype Client = Client(key: string, hasDir: bool, cache: Cache, disk: CacheFile)

  const COLD := Cache("", map[])

  /** Later entries of the same name win. */
  function FeatureMap(features: seq<Feature>): map<string, bool> {
    if features == [] then map[]
    else
      var f := features[|features| - 1];
      FeatureMap(features[..|features| - 1])[f.name := f.entitled]
  }

  /** A client just constructed, over whatever the cache file holds. */
  function NewClient(key: string, hasDir: bool, disk: CacheFile): Client {
    Client(key, hasDir, if hasDir && disk.Cached? then disk.cache else COLD, disk)
  }

  function FeatureEnabled(c: Client, k: string): bool {
    c.key != "" && k in c.cache.features && c.cache.features[k]
  }

  datatype Op =
    | Validate(fetched: Option<Response>, persistOk: bool)
    | Restart

  function CacheOf(r: Response): Cache {
    Cache(r.tier, FeatureMap(r.features))
  }

  function Step(c: Client, op: Op): Client {
    match op
    case Restart => NewClient(c.key, c.hasDir, c.disk)
    case Validate(fetched, persistOk) =>
      if c.key == "" then c.(cache := COLD)
      else match fetched
        case None => c
        case Some(r) =>
          c.(cache := CacheOf(r), disk := if c.hasDir && persistOk then Cached(CacheOf(r)) else c.disk)
  }

  function Run(c: Client, ops: seq<Op>): Client {
    if ops == [] then c else Step(Run(c, ops[..|ops| - 1]), ops[|ops| - 1])
  }

  // ---- What the answers should be ----

  /** The last entry named `k` is entitled. */
  predicate Entitled(features: seq<Feature>, k: string) {
    exists i :: 0 <= i < |features| && features[i].name == k && features[i].entitled
      && forall j :: i < j < |features| ==> features[j].name != k
  }

  lemma {:induction false} FeatureMapMeaning(features: seq<Feature>, k: string)
    ensures (k in FeatureMap(features) && FeatureMap(features)[k]) <==> Entitled(features, k)
  {
    if features != [] {
      var last := |features| - 1;
      var front := features[..last];
      FeatureMapMeaning(front, k);
      EntitledLast(features, k);
    }
  }

  /** The last feature decides if it has the name, otherwise those before it do. */
  lemma EntitledLast(features: seq<Feature>, k: string)
    requires features != []
    ensures
      var last := |features| - 1;
      Entitled(features, k) <==> if features[last].name == k then features[last].entitled else Entitled(features[..last], k)
  {
    var last := |features| - 1;
    var front := features[..last];
    if features[last].name != k {
      if Entitled(front, k) {
        var i :| 0 <= i < |front| && front[i].name == k && front[i].entitled
          && forall j :: i < j < |front| ==> front[j].name != k;
        assert features[i].name == k && features[i].entitled;
      }
      if Entitled(features, k) {
        var i :| 0 <= i < |features| && features[i].name == k && features[i].entitled
          && forall j :: i < j < |features| ==> features[j].name != k;
        assert front[i].name == k && front[i].entitled;
      }
    }
  }

  /** Where an answer comes from: a response of this history, or the cache file found at the start. */
  datatype Origin = AtStart | From(response: Response)

  /** The last response whose persisting succeeded. */
  function LastPersisted(ops: seq<Op>): Origin {
    if ops == [] then AtStart
    else
      match ops[|ops| - 1]
      case Validate(Some(r), true) => From(r)
      case _ => LastPersisted(ops[..|ops| - 1])
  }

  /** The response in force: the latest one received, or after a restart the last one persisted. */
  function InForce(ops: seq<Op>, hasDir: bool): Option<Origin> {
    if ops == [] then Some(AtStart)
    else
      match ops[|ops| - 1]
      case Validate(Some(r), _) => Some(From(r))
      case Validate(None, _) => InForce(ops[..|ops| - 1], hasDir)
      case Restart => if hasDir then Some(LastPersisted(ops[..|ops| - 1])) else None
  }

  function CacheFrom(origin: Option<Origin>, start: Client): Cache {
    match origin
    case None => COLD
    case Some(AtStart) => start.cache
    case Some(From(r)) => CacheOf(r)
  }

  function DiskFrom(origin: Origin, start: Client): CacheFile {
    match origin
    case AtStart => start.disk
    case From(r) => Cached(CacheOf(r))
  }

  lemma {:induction false} RunTracks(key: string, hasDir: bool, disk: CacheFile, ops: seq<Op>)
    requires key != ""
    ensures
      var start := NewClient(key, hasDir, disk);
      var c := Run(start, ops);
      && c.key == key && c.hasDir == hasDir
      && c.cache == CacheFrom(InForce(ops, hasDir), start)
      && c.disk == if hasDir then DiskFrom(LastPersisted(ops), start) else disk
  {
    if ops != [] {
      RunTracks(key, hasDir, disk, ops[..|ops| - 1]);
    }
  }

  /** For every history with a non-empty key: a feature is enabled exactly when the last entry of that
      name in the response in force is entitled, and the tier is the one that response gave. Failed
      fetches change nothing and a restart goes back to the last response persisted; before any response,
      a readable cache file answers. */
  lemma AnswersLikeResponse(key: string, hasDir: bool, disk: CacheFile, ops: seq<Op>, k: string)
    requires key != ""
    ensures
      var start := NewClient(key, hasDir, disk);
      var c := Run(start, ops);
      match InForce(ops, hasDir)
      case Some(From(r)) => (FeatureEnabled(c, k) <==> Entitled(r.features, k)) && c.cache.tier == r.tier
      case Some(AtStart) =>
        if hasDir && disk.Cached? then
          (FeatureEnabled(c, k) <==> k in disk.cache.features && disk.cache.features[k]) && c.cache.tier == disk.cache.tier
        else
          !FeatureEnabled(c, k) && c.cache.tier == ""
      case None => !FeatureEnabled(c, k) && c.cache.tier == ""
  {
    RunTracks(key, hasDir, disk, ops);
    match InForce(ops, hasDir) {
      case Some(From(r)) => FeatureMapMeaning(r.features, k);
      case _ =>
    }
  }

  /** Without a key nothing is ever enabled, the cache file is left alone, and validating forgets the tier. */
  lemma {:induction false} NoKeyNoFeatures(hasDir: bool, disk: CacheFile, ops: seq<Op>, k: string)
    ensures !FeatureEnabled(Run(NewClient("", hasDir, disk), ops), k)
    ensures Run(NewClient("", hasDir, disk), ops).key == "" && Run(NewClient("", hasDir, disk), ops).disk == disk
    ensures ops != [] && ops[|ops| - 1].Validate? ==> Run(NewClient("", hasDir, disk), ops).cache.tier == ""
  {
    if ops != [] {
      NoKeyNoFeatures(hasDir, disk, ops[..|ops| - 1], k);
    }
  }

  // ---- The cache file ----

  function CacheFileOf(codec: Codec<Cache>, fs: Files, path: string): CacheFile {
    if path !in fs then NoFile
    else match codec.decode(fs[path])
      case None => Corrupt
      case Some(cache) => Cached(cache)
  }

  /** Persisting is atomic: after a crash anywhere the file reads as the old cache or the new one; on
      return as the new one exactly on success, and a failed call that can remove files leaves no
      temporary file behind. */
  lemma PersistIsAtomic(codec: Codec<Cache>, fs: Files, path: string, tmp: string, cache: Cache, p: Plan, k: nat)
    requires LawfulCodec(codec) && FreshTemp(fs, path, tmp)
    ensures
      var states := States(fs, path, tmp, codec.encode(cache), p, true);
      var end := Final(fs, states);
      && CacheFileOf(codec, end, path) == (if AllSucceed(p) then Cached(cache) else CacheFileOf(codec, fs, path))
      && (p.remove ==> tmp !in end)
      && (k < |states| ==> CacheFileOf(codec, states[k], path) in {CacheFileOf(codec, fs, path), Cached(cache)})
  {
    var data := codec.encode(cache);
    var states := States(fs, path, tmp, data, p, true);
    ReturnLeaves(fs, path, tmp, data, p, true);
    if k < |states| {
      CrashLeavesOldOrNew(fs, path, tmp, data, p, true, k);
    }
  }

  // ---- The client object ----

  class LicenseClient {
    const key: string
    const hasDir: bool
    var cachedTier: string
    var cachedFeatures: map<string, bool>
    var disk: CacheFile

    function View(): Client
      reads this
    {
      Client(key, hasDir, Cache(cachedTier, cachedFeatures), disk)
    }

    constructor (key: string, hasDir: bool, disk: CacheFile)
      ensures View() == NewClient(key, hasDir, disk)
    {
      this.key, this.hasDir, this.disk := key, hasDir, disk;
      cachedTier, cachedFeatures := "", map[];
      if hasDir && disk.Cached? {
        cachedTier, cachedFeatures := disk.cache.tier, disk.cache.features;
      }
    }

    method IsEnabled(k: string) returns (enabled: bool)
      ensures enabled == FeatureEnabled(View(), k)
    {
      if key == "" {
        return false;
      }
      if k in cachedFeatures {
        return cachedFeatures[k];
      }
      return false;
    }

    method Refresh(fetched: Option<Response>, persistOk: bool)
      modifies this
      ensures View() == Step(old(View()), Validate(fetched, persistOk))
    {
      if key == "" {
        cachedTier, cachedFeatures := "", map[];
        return;
      }
      if fetched.None? {
        return;
      }
      UpdateCache(fetched.value, persistOk);
    }

    /** Rebuild the cache entry by entry and try to persist it. */
    method UpdateCache(info: Response, persistOk: bool)
      modifies this
      ensures cachedTier == info.tier && cachedFeatures == FeatureMap(info.features)
      ensures disk == if hasDir && persistOk then Cached(CacheOf(info)) else old(disk)
    {
      cachedTier := info.tier;
      cachedFeatures := map[];
      for i := 0 to |info.features|
        invariant cachedFeatures == FeatureMap(info.features[..i])
        invariant cachedTier == info.tier && disk == old(disk)
      {
        assert info.features[..i + 1][..i] == info.features[..i];
        cachedFeatures := cachedFeatures[info.features[i].name := info.features[i].entitled];
      }
      assert info.features[..|info.features|] == info.features;
      if hasDir && persistOk {
        disk := Cached(Cache(cachedTier, cachedFeatures));
      }
    }
  }
}
