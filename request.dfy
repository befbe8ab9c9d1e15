/**
 * The request-resolution pipeline and the cache lifecycle: cache-path
 * derivation, the TTL check with read-time eviction, the cache lookup, the
 * tee that forwards an upstream body while writing it to the cache, the
 * request orchestration, and one pass of the TTL sweep.
 *
 * Each operation that touches the disk is a method on a `FileSystem`, proved
 * against a pure function of the old store; the properties of the pipeline
 * are lemmas about those functions.
 */
module Request {
  import opened Wrappers
  import opened Paths
  import opened Storage
  import opened Config

  predicate IsLowerHex(s: string) {
    forall i | 0 <= i < |s| :: s[i] in "0123456789abcdef"
  }

  /** The `{:x}` rendering of a 20-byte SHA-1 digest. */
  type HexDigest = s: string | |s| == 40 && IsLowerHex(s)
    witness "0000000000000000000000000000000000000000"

  /** SHA-1 of a request path's bytes, rendered in hex. Its internals are not
      modelled: every operation takes the hash function as a parameter. */
  type Sha1 = string -> HexDigest

  lemma DigestIsName(d: HexDigest)
    ensures IsName(d)
  {
  }

  /** `{cache_directory}/{repository}/{hex(sha1(path))}`: a file directly
      inside the repository's cache directory, named by the digest alone. */
  function CacheFilePath(cacheDirectory: Path, repository: string, path: string, sha1: Sha1): (p: Path)
    ensures HasParent(p)
    ensures DirName(p) == Join(cacheDirectory, repository)
    ensures BaseName(p) == sha1(path) && IsName(BaseName(p))
  {
    DigestIsName(sha1(path));
    JoinSplits(Join(cacheDirectory, repository), sha1(path));
    Join(Join(cacheDirectory, repository), sha1(path))
  }

  /** Two requests share a cache file exactly when they name the same
      repository and their paths have the same digest. */
  lemma CacheFilePathCollision(cacheDirectory: Path, r1: string, p1: string, r2: string, p2: string, sha1: Sha1)
    ensures CacheFilePath(cacheDirectory, r1, p1, sha1) == CacheFilePath(cacheDirectory, r2, p2, sha1)
        <==> r1 == r2 && sha1(p1) == sha1(p2)
  {
    var a := CacheFilePath(cacheDirectory, r1, p1, sha1);
    var b := CacheFilePath(cacheDirectory, r2, p2, sha1);
    if a == b {
      var d1, d2 := Join(cacheDirectory, r1), Join(cacheDirectory, r2);
      assert d1 == d2;
      assert r1 == d1[|cacheDirectory| + 1..];
      assert r2 == d2[|cacheDirectory| + 1..];
    }
  }

  /** `check_file_ttl`'s test: the age has reached the TTL, which is given in
      minutes. An age equal to the TTL counts as expired. */
  predicate Expired(e: Entry, now: nat, ttlMinutes: nat)
    requires e.mtime <= now
  {
    now - e.mtime >= ttlMinutes * 60
  }

  /** What `get_cached_file` returns and the store it leaves behind. */
  datatype Lookup = Lookup(hit: Option<Bytes>, files: map<Path, Entry>)

  /** `get_cached_file` on the cache file `p`: a hit serves the stored bytes;
      an absent entry is a miss that changes nothing; an expired entry is a
      miss that deletes it. */
  function CachedLookup(files: map<Path, Entry>, p: Path, now: nat, ttlMinutes: nat): (r: Lookup)
    requires NotInFutureAt(files, p, now)
    ensures r.hit.Some? <==> p in files && !Expired(files[p], now, ttlMinutes)
    ensures r.hit.Some? ==> r.hit.value == files[p].content && r.files == files
    ensures p !in files ==> r.hit.None? && r.files == files
    ensures p in files && Expired(files[p], now, ttlMinutes) ==> r.hit.None? && r.files == files - {p}
  {
    if p in files then
      if Expired(files[p], now, ttlMinutes) then Lookup(None, files - {p})
      else Lookup(Some(files[p].content), files)
    else Lookup(None, files)
  }

  /** HTTP 200. */
  const OK: nat := 200

  /** The one error `request_file` reports. */
  datatype AptCacheError = RepositoryNotFound

  /** An upstream response: its status and its body as the chunks it arrives in. */
  datatype Response = Response(status: nat, chunks: seq<Bytes>)

  /** What `request_file` returns: status, whether it was served from the
      cache, and the bytes of the body stream. */
  datatype Reply = Reply(status: nat, cached: bool, body: Bytes)

  /** A resolved request: the reply, the store afterwards and the upstream URL
      fetched, if any. */
  datatype Outcome = Outcome(result: Result<Reply, AptCacheError>, files: map<Path, Entry>, fetched: Option<string>)

  /** The clock assumption of `request_file`: when the repository is known,
      its cache file was not modified after `now`. */
  predicate RequestClockOk(cfg: Config, files: map<Path, Entry>, repository: string, path: string,
                           now: nat, sha1: Sha1)
    reads cfg
  {
    cfg.GetRepository(repository).Some? ==>
      NotInFutureAt(files, CacheFilePath(cfg.cacheDirectory, repository, path, sha1), now)
  }

  /** `request_file`: repository lookup, then the cache, then upstream.
      `fetch` gives the upstream response for a URL. */
  function Resolve(cfg: Config, files: map<Path, Entry>, repository: string, path: string,
                   now: nat, sha1: Sha1, fetch: string -> Response): Outcome
    reads cfg
    requires RequestClockOk(cfg, files, repository, path, now, sha1)
  {
    match cfg.GetRepository(repository)
    case None => Outcome(Err(RepositoryNotFound), files, None)
    case Some(repo) =>
      var p := CacheFilePath(cfg.cacheDirectory, repository, path, sha1);
      var lookup := CachedLookup(files, p, now, cfg.cacheTtl);
      if lookup.hit.Some? then
        Outcome(Ok(Reply(OK, true, lookup.hit.value)), lookup.files, None)
      else
        var url := repo.url + path;
        var response := fetch(url);
        var body := Concat(response.chunks);
        if response.status != OK then
          Outcome(Ok(Reply(response.status, false, body)), lookup.files, Some(url))
        else
          Outcome(Ok(Reply(OK, false, body)), lookup.files[p := Entry(body, now)], Some(url))
  }

  /** An unknown repository is reported before the cache or upstream is
      touched, whatever the path. */
  lemma UnknownRepository(cfg: Config, files: map<Path, Entry>, repository: string, path: string,
                          now: nat, sha1: Sha1, fetch: string -> Response)
    requires forall i | 0 <= i < |cfg.repositories| :: cfg.repositories[i].name != repository
    ensures Resolve(cfg, files, repository, path, now, sha1, fetch)
         == Outcome(Err(RepositoryNotFound), files, None)
  {
  }

  /** A live cache entry is served as it is stored, with status 200, without
      an upstream fetch and without changing the store. */
  lemma HitServesStoredBytes(cfg: Config, files: map<Path, Entry>, repository: string, path: string,
                             now: nat, sha1: Sha1, fetch: string -> Response)
    requires cfg.GetRepository(repository).Some?
    requires var p := CacheFilePath(cfg.cacheDirectory, repository, path, sha1);
      p in files && files[p].mtime <= now && !Expired(files[p], now, cfg.cacheTtl)
    ensures var p := CacheFilePath(cfg.cacheDirectory, repository, path, sha1);
      Resolve(cfg, files, repository, path, now, sha1, fetch)
        == Outcome(Ok(Reply(OK, true, files[p].content)), files, None)
  {
  }

  /** On a miss the upstream URL is the repository's URL followed by the
      path, and the reply carries the upstream status and body unchanged,
      marked as not cached. */
  lemma MissForwardsUpstream(cfg: Config, files: map<Path, Entry>, repository: string, path: string,
                             now: nat, sha1: Sha1, fetch: string -> Response)
    requires cfg.GetRepository(repository).Some?
    requires var p := CacheFilePath(cfg.cacheDirectory, repository, path, sha1);
      p !in files || (files[p].mtime <= now && Expired(files[p], now, cfg.cacheTtl))
    ensures var url := cfg.GetRepository(repository).value.url + path;
      var o := Resolve(cfg, files, repository, path, now, sha1, fetch);
      o.fetched == Some(url) &&
      o.result == Ok(Reply(fetch(url).status, false, Concat(fetch(url).chunks)))
  {
  }

  /** A request changes at most its own cache file; a non-200 reply leaves
      no entry there, and a 200 miss leaves exactly the body it served. */
  lemma OnlyOwnEntryChanges(cfg: Config, files: map<Path, Entry>, repository: string, path: string,
                            now: nat, sha1: Sha1, fetch: string -> Response)
    requires RequestClockOk(cfg, files, repository, path, now, sha1)
    ensures var p := CacheFilePath(cfg.cacheDirectory, repository, path, sha1);
      var o := Resolve(cfg, files, repository, path, now, sha1, fetch);
      && o.files - {p} == files - {p}
      && (o.result.Ok? && o.result.value.status != OK ==> p !in o.files)
      && (o.result.Ok? && o.result.value.status == OK && !o.result.value.cached ==>
            p in o.files && o.files[p] == Entry(o.result.value.body, now))
      && RequestClockOk(cfg, o.files, repository, path, now, sha1)
  {
  }

  /** The round trip: after a 200 miss, the same request made before the TTL
      runs out is a hit with the very bytes the miss served, and fetches
      nothing. */
  lemma MissThenHit(cfg: Config, files: map<Path, Entry>, repository: string, path: string,
                    now: nat, later: nat, sha1: Sha1, fetch: string -> Response)
    requires RequestClockOk(cfg, files, repository, path, now, sha1)
    requires now <= later && later - now < cfg.cacheTtl * 60
    requires var o := Resolve(cfg, files, repository, path, now, sha1, fetch);
      o.result.Ok? && o.result.value.status == OK && !o.result.value.cached
    ensures var o := Resolve(cfg, files, repository, path, now, sha1, fetch);
      RequestClockOk(cfg, o.files, repository, path, later, sha1) &&
      Resolve(cfg, o.files, repository, path, later, sha1, fetch)
        == Outcome(Ok(Reply(OK, true, o.result.value.body)), o.files, None)
  {
  }

  /** Once an entry's age reaches the TTL, the next request for it is a miss
      that goes upstream again. */
  lemma ExpiredIsRefetched(cfg: Config, files: map<Path, Entry>, repository: string, path: string,
                           now: nat, sha1: Sha1, fetch: string -> Response)
    requires cfg.GetRepository(repository).Some?
    requires var p := CacheFilePath(cfg.cacheDirectory, repository, path, sha1);
      p in files && files[p].mtime <= now && Expired(files[p], now, cfg.cacheTtl)
    ensures var o := Resolve(cfg, files, repository, path, now, sha1, fetch);
      o.fetched == Some(cfg.GetRepository(repository).value.url + path) &&
      o.result.Ok? && !o.result.value.cached
  {
    MissForwardsUpstream(cfg, files, repository, path, now, sha1, fetch);
  }

  /** One repository "debian" with a one-minute TTL and an upstream that
      answers 200 with "ABC": the first request is a miss that serves and
      stores "ABC"; one within the minute is a hit with the same bytes; one a
      minute after the write goes upstream again. */
  lemma DebianScenario(cfg: Config, sha1: Sha1, fetch: string -> Response, now: nat)
    requires cfg.repositories == [Repository("debian", "http://mirror.example/debian/")]
    requires cfg.cacheTtl == 1
    requires fetch("http://mirror.example/debian/pool/a.deb") == Response(OK, [[65, 66, 67]])
    ensures var first := Resolve(cfg, map[], "debian", "pool/a.deb", now, sha1, fetch);
      && first.result == Ok(Reply(OK, false, [65, 66, 67]))
      && first.fetched == Some("http://mirror.example/debian/pool/a.deb")
      && first.files
           == map[CacheFilePath(cfg.cacheDirectory, "debian", "pool/a.deb", sha1) := Entry([65, 66, 67], now)]
      && Resolve(cfg, first.files, "debian", "pool/a.deb", now + 59, sha1, fetch).result
           == Ok(Reply(OK, true, [65, 66, 67]))
      && Resolve(cfg, first.files, "debian", "pool/a.deb", now + 59, sha1, fetch).fetched == None
      && Resolve(cfg, first.files, "debian", "pool/a.deb", now + 60, sha1, fetch).fetched
           == Some("http://mirror.example/debian/pool/a.deb")
  {
    var url := "http://mirror.example/debian/pool/a.deb";
    assert cfg.GetRepository("debian") == Some(Repository("debian", "http://mirror.example/debian/"));
    assert "http://mirror.example/debian/" + "pool/a.deb" == url;
    assert Concat([[65, 66, 67]]) == [65, 66, 67];
    var first := Resolve(cfg, map[], "debian", "pool/a.deb", now, sha1, fetch);
    MissThenHit(cfg, map[], "debian", "pool/a.deb", now, now + 59, sha1, fetch);
    OnlyOwnEntryChanges(cfg, map[], "debian", "pool/a.deb", now, sha1, fetch);
    ExpiredIsRefetched(cfg, first.files, "debian", "pool/a.deb", now + 60, sha1, fetch);
  }

  /** `check_file_ttl`: true when the entry is still live; otherwise the
      file is deleted and the answer is false. */
  method CheckFileTtl(cfg: Config, fs: FileSystem, cacheFile: Path, now: nat) returns (alive: bool)
    requires fs.Valid() && cacheFile in fs.files && fs.files[cacheFile].mtime <= now
    modifies fs
    ensures fs.Valid() && fs.dirs == old(fs.dirs)
    ensures alive <==> !Expired(old(fs.files)[cacheFile], now, cfg.cacheTtl)
    ensures fs.files == if alive then old(fs.files) else old(fs.files) - {cacheFile}
  {
    var modified := fs.files[cacheFile].mtime;
    var duration := now - modified;
    var ttl := cfg.cacheTtl * 60;
    if duration >= ttl {
      fs.RemoveFile(cacheFile);
      return false;
    }
    return true;
  }

  /** `get_cached_file`. */
  method GetCachedFile(cfg: Config, fs: FileSystem, repository: string, path: string,
                       now: nat, sha1: Sha1) returns (cached: Option<Bytes>)
    requires fs.Valid() && NotInFutureAt(fs.files, CacheFilePath(cfg.cacheDirectory, repository, path, sha1), now)
    requires CacheFilePath(cfg.cacheDirectory, repository, path, sha1) !in fs.dirs
    modifies fs
    ensures fs.Valid() && fs.dirs == old(fs.dirs)
    ensures Lookup(cached, fs.files)
         == CachedLookup(old(fs.files), CacheFilePath(cfg.cacheDirectory, repository, path, sha1),
                         now, cfg.cacheTtl)
  {
    var cachePath := CacheFilePath(cfg.cacheDirectory, repository, path, sha1);
    if fs.Exists(cachePath) {
      var alive := CheckFileTtl(cfg, fs, cachePath, now);
      if alive {
        return Some(fs.files[cachePath].content);
      }
    }
    return None;
  }

  /** `cache_file`, the tee, run sequentially: the cache file is created
      (truncating any earlier content), then every upstream chunk is handed
      to the writer, which appends it to the file, and yielded to the
      client. The client sees the upstream chunks in their order and the
      file ends up holding exactly their concatenation. */
  method CacheFile(cfg: Config, fs: FileSystem, stream: seq<Bytes>, repository: string, path: string,
                   now: nat, sha1: Sha1) returns (out: seq<Bytes>)
    requires fs.Valid() && CacheFilePath(cfg.cacheDirectory, repository, path, sha1) !in fs.dirs
    modifies fs
    ensures out == stream
    ensures fs.Valid() && fs.dirs == old(fs.dirs)
    ensures fs.files == old(fs.files)[CacheFilePath(cfg.cacheDirectory, repository, path, sha1)
                                      := Entry(Concat(stream), now)]
  {
    var cachePath := CacheFilePath(cfg.cacheDirectory, repository, path, sha1);
    fs.Create(cachePath, now);
    out := [];
    var i := 0;
    while i < |stream|
      invariant 0 <= i <= |stream|
      invariant out == stream[..i]
      invariant fs.Valid() && fs.dirs == old(fs.dirs)
      invariant fs.files == old(fs.files)[cachePath := Entry(Concat(stream[..i]), now)]
    {
      var bytes := stream[i];
      fs.WriteAll(cachePath, bytes, now);
      out := out + [bytes];
      assert stream[..i + 1] == stream[..i] + [bytes];
      ConcatAppend(stream[..i], [bytes]);
      assert Concat([bytes]) == bytes;
      i := i + 1;
    }
    assert stream[..i] == stream;
  }

  /** `request_file`; `fetched` records the upstream URL requested, if any. */
  method RequestFile(cfg: Config, fs: FileSystem, repository: string, path: string, now: nat,
                     sha1: Sha1, fetch: string -> Response)
    returns (r: Result<Reply, AptCacheError>, ghost fetched: Option<string>)
    requires fs.Valid() && RequestClockOk(cfg, fs.files, repository, path, now, sha1)
    requires cfg.GetRepository(repository).Some? ==>
      CacheFilePath(cfg.cacheDirectory, repository, path, sha1) !in fs.dirs
    modifies fs
    ensures fs.Valid() && fs.dirs == old(fs.dirs)
    ensures Outcome(r, fs.files, fetched) == Resolve(cfg, old(fs.files), repository, path, now, sha1, fetch)
  {
    var repo := cfg.GetRepository(repository);
    if repo.None? {
      return Err(RepositoryNotFound), None;
    }
    var cached := GetCachedFile(cfg, fs, repository, path, now, sha1);
    if cached.Some? {
      return Ok(Reply(OK, true, cached.value)), None;
    }
    var url := repo.value.url + path;
    var response := fetch(url);
    fetched := Some(url);
    if response.status != OK {
      return Ok(Reply(response.status, false, Concat(response.chunks))), fetched;
    }
    var body := CacheFile(cfg, fs, response.chunks, repository, path, now, sha1);
    return Ok(Reply(OK, false, Concat(body))), fetched;
  }
  /** The files one sweep pass visits: regular files directly inside a
      directory that is itself directly inside the cache root. */
  predicate InSweepScope(cacheDirectory: Path, dirs: set<Path>, p: Path) {
    HasParent(p) && DirName(p) in dirs && IsEntryOf(cacheDirectory, DirName(p))
  }

  /** The clock assumption of one pass: no file the pass visits was modified
      after `now`. */
  predicate SweepClockOk(cacheDirectory: Path, dirs: set<Path>, files: map<Path, Entry>, now: nat) {
    forall p | p in files && InSweepScope(cacheDirectory, dirs, p) :: files[p].mtime <= now
  }

  /** The store after one pass of the TTL worker. */
  function SweepPass(cacheDirectory: Path, dirs: set<Path>, files: map<Path, Entry>,
                     now: nat, ttlMinutes: nat): map<Path, Entry>
    requires SweepClockOk(cacheDirectory, dirs, files, now)
  {
    map p | p in files && !(InSweepScope(cacheDirectory, dirs, p) && Expired(files[p], now, ttlMinutes))
      :: files[p]
  }

  /** A pass deletes exactly the visited files whose age has reached the TTL
      and leaves every other file as it was. */
  lemma SweepRemovesExactlyExpired(cacheDirectory: Path, dirs: set<Path>, files: map<Path, Entry>,
                                   now: nat, ttlMinutes: nat)
    requires SweepClockOk(cacheDirectory, dirs, files, now)
    ensures var r := SweepPass(cacheDirectory, dirs, files, now, ttlMinutes);
      && r.Keys <= files.Keys
      && (forall p | p in r :: r[p] == files[p])
      && (forall p | p in files ::
            p !in r <==> InSweepScope(cacheDirectory, dirs, p) && Expired(files[p], now, ttlMinutes))
  {
  }

  /** Files directly inside the cache root are never visited. */
  lemma SweepSparesTopLevelFiles(cacheDirectory: Path, dirs: set<Path>, files: map<Path, Entry>,
                                 now: nat, ttlMinutes: nat, p: Path)
    requires SweepClockOk(cacheDirectory, dirs, files, now)
    requires p in files && IsEntryOf(cacheDirectory, p)
    ensures p in SweepPass(cacheDirectory, dirs, files, now, ttlMinutes)
  {
  }

  /** A second pass at the same time finds nothing more to delete. */
  lemma SweepIdempotent(cacheDirectory: Path, dirs: set<Path>, files: map<Path, Entry>,
                        now: nat, ttlMinutes: nat)
    requires SweepClockOk(cacheDirectory, dirs, files, now)
    ensures var r := SweepPass(cacheDirectory, dirs, files, now, ttlMinutes);
      SweepClockOk(cacheDirectory, dirs, r, now) && SweepPass(cacheDirectory, dirs, r, now, ttlMinutes) == r
  {
  }

  /** The sweep and the read-time check apply the same test: a lookup after
      the pass answers as it would have before it, and a cache file of a
      repository directory survives the pass exactly when a lookup at the
      same time would be a hit. */
  lemma SweepAgreesWithLookup(cacheDirectory: Path, dirs: set<Path>, files: map<Path, Entry>,
                              now: nat, ttlMinutes: nat, repository: string, path: string, sha1: Sha1)
    requires SweepClockOk(cacheDirectory, dirs, files, now)
    requires NotInFutureAt(files, CacheFilePath(cacheDirectory, repository, path, sha1), now)
    ensures var r := SweepPass(cacheDirectory, dirs, files, now, ttlMinutes);
      var p := CacheFilePath(cacheDirectory, repository, path, sha1);
      NotInFutureAt(r, p, now) &&
      CachedLookup(r, p, now, ttlMinutes).hit == CachedLookup(files, p, now, ttlMinutes).hit
    ensures var r := SweepPass(cacheDirectory, dirs, files, now, ttlMinutes);
      var p := CacheFilePath(cacheDirectory, repository, path, sha1);
      IsName(repository) && Join(cacheDirectory, repository) in dirs && p in files ==>
        (p in r <==> CachedLookup(files, p, now, ttlMinutes).hit.Some?)
  {
    var p := CacheFilePath(cacheDirectory, repository, path, sha1);
    if IsName(repository) && Join(cacheDirectory, repository) in dirs && p in files {
      JoinSplits(cacheDirectory, repository);
      assert InSweepScope(cacheDirectory, dirs, p);
    }
  }

  /** The store after visiting the files in `visited`. */
  ghost function Swept(files0: map<Path, Entry>, now: nat, ttlMinutes: nat, visited: set<Path>): map<Path, Entry>
    requires forall p | p in files0 && p in visited :: files0[p].mtime <= now
  {
    map p | p in files0 && !(p in visited && Expired(files0[p], now, ttlMinutes)) :: files0[p]
  }

  lemma SweptVisit(files0: map<Path, Entry>, now: nat, ttlMinutes: nat, visited: set<Path>, f: Path)
    requires forall p | p in files0 && p in visited :: files0[p].mtime <= now
    requires f in files0 ==> f !in visited && files0[f].mtime <= now
    ensures f in files0 ==>
      (Swept(files0, now, ttlMinutes, visited + {f})
         == if Expired(files0[f], now, ttlMinutes) then Swept(files0, now, ttlMinutes, visited) - {f}
            else Swept(files0, now, ttlMinutes, visited))
    ensures f !in files0 ==> Swept(files0, now, ttlMinutes, visited + {f}) == Swept(files0, now, ttlMinutes, visited)
  {
  }

  lemma SweptAll(cacheDirectory: Path, dirs: set<Path>, files0: map<Path, Entry>, now: nat,
                 ttlMinutes: nat, visited: set<Path>)
    requires SweepClockOk(cacheDirectory, dirs, files0, now)
    requires forall p | p in files0 :: p in visited <==> InSweepScope(cacheDirectory, dirs, p)
    ensures Swept(files0, now, ttlMinutes, visited) == SweepPass(cacheDirectory, dirs, files0, now, ttlMinutes)
  {
  }

  /** One pass of `run_cache_ttl_worker`: every directory entry of the cache
      root that is a directory is listed, and every regular file in it goes
      through `check_file_ttl`. Entries are visited in an unspecified order,
      as `read_dir` gives them. */
  method SweepOnce(cfg: Config, fs: FileSystem, now: nat)
    requires fs.Valid() && SweepClockOk(cfg.cacheDirectory, fs.dirs, fs.files, now)
    requires cfg.cacheDirectory in fs.dirs
    modifies fs
    ensures fs.Valid() && fs.dirs == old(fs.dirs)
    ensures fs.files == SweepPass(cfg.cacheDirectory, fs.dirs, old(fs.files), now, cfg.cacheTtl)
  {
    ghost var files0 := fs.files;
    ghost var visited: set<Path> := {};
    ghost var doneDirs: set<Path> := {};
    var repositories := fs.Entries(cfg.cacheDirectory);
    ghost var top := repositories;
    while repositories != {}
      invariant fs.Valid() && fs.dirs == old(fs.dirs)
      invariant repositories <= top
      invariant forall q | q in fs.dirs :: q in top <==> IsEntryOf(cfg.cacheDirectory, q)
      invariant doneDirs == (top - repositories) * fs.dirs
      invariant forall q | q in doneDirs :: IsEntryOf(cfg.cacheDirectory, q)
      invariant forall p | p in files0 :: p in visited <==> HasParent(p) && DirName(p) in doneDirs
      invariant fs.files == Swept(files0, now, cfg.cacheTtl, visited)
      decreases repositories
    {
      var repository :| repository in repositories;
      repositories := repositories - {repository};
      if repository in fs.dirs {
        var cacheFiles := fs.Entries(repository);
        ghost var listed := cacheFiles;
        while cacheFiles != {}
          invariant fs.Valid() && fs.dirs == old(fs.dirs)
          invariant cacheFiles <= listed
          invariant repository !in doneDirs && repository in fs.dirs
          invariant IsEntryOf(cfg.cacheDirectory, repository)
          invariant forall p | p in listed :: IsEntryOf(repository, p)
          invariant forall p | p in files0 && IsEntryOf(repository, p) :: p in listed
          invariant forall p | p in files0 :: p in visited <==>
            HasParent(p) && (DirName(p) in doneDirs || (DirName(p) == repository && p !in cacheFiles))
          invariant fs.files == Swept(files0, now, cfg.cacheTtl, visited)
          decreases cacheFiles
        {
          var cacheFile :| cacheFile in cacheFiles;
          cacheFiles := cacheFiles - {cacheFile};
          SweptVisit(files0, now, cfg.cacheTtl, visited, cacheFile);
          if cacheFile in fs.files {
            var _ := CheckFileTtl(cfg, fs, cacheFile, now);
          }
          visited := visited + {cacheFile};
        }
        doneDirs := doneDirs + {repository};
      }
    }
    SweptAll(cfg.cacheDirectory, fs.dirs, files0, now, cfg.cacheTtl, visited);
  }
}
