/**
 * The proxy's configuration: the repositories it fronts, the cache root and
 * the time-to-live of cache entries, plus the start-up step that applies the
 * `CACHE_PATH` override, creates the cache directories and normalises the
 * upstream URLs.
 */
module Config {
  import opened Wrappers
  import opened Paths
  import opened Storage

  /** An upstream repository: the name clients use and its base URL. */
  datatype Repository = Repository(name: string, url: string)

  function DefaultCacheDirectory(): string {
    "cache"
  }

  /** In minutes: one day. */
  function DefaultCacheTtl(): nat {
    60 * 24
  }

  predicate EndsWithSlash(s: string) {
    |s| > 0 && s[|s| - 1] == '/'
  }

  /** The URL with exactly one '/' appended unless it already ends in one. */
  function NormalizeUrl(url: string): (r: string)
    ensures EndsWithSlash(r)
    ensures EndsWithSlash(url) ==> r == url
    ensures !EndsWithSlash(url) ==> r == url + "/"
  {
    if EndsWithSlash(url) then url else url + "/"
  }

  lemma NormalizeUrlIdempotent(url: string)
    ensures NormalizeUrl(NormalizeUrl(url)) == NormalizeUrl(url)
  {
  }

  /** The cache directory after the `CACHE_PATH` override, `env` being the
      variable's value if it is set: the override wins only over the default. */
  function OverrideCacheDirectory(current: string, env: Option<string>): (r: string)
    ensures env.Some? && current == "cache" ==> r == env.value
    ensures env.None? || current != "cache" ==> r == current
  {
    if env.Some? && current == DefaultCacheDirectory() then env.value else current
  }

  /** The first repository called `name`, as `iter().find` returns it. */
  function FindRepository(repos: seq<Repository>, name: string): (r: Option<Repository>)
    ensures r.None? <==> forall i | 0 <= i < |repos| :: repos[i].name != name
    ensures r.Some? ==> exists i | 0 <= i < |repos| ::
      repos[i] == r.value && r.value.name == name &&
      forall j | 0 <= j < i :: repos[j].name != name
  {
    if |repos| == 0 then None
    else if repos[0].name == name then Some(repos[0])
    else
      var r := FindRepository(repos[1..], name);
      assert r.Some? ==> exists i | 0 <= i < |repos[1..]| ::
        repos[1..][i] == r.value && r.value.name == name &&
        forall j | 0 <= j < i :: repos[1..][j].name != name;
      assert r.Some? ==> exists i | 1 <= i < |repos| ::
        repos[i] == r.value && r.value.name == name &&
        forall j | 0 <= j < i :: repos[j].name != name;
      r
  }

  /** The subdirectories of the first `n` repositories. */
  function RepositoryDirectories(cacheDirectory: Path, repos: seq<Repository>, n: nat): set<Path>
    requires n <= |repos|
  {
    set i | 0 <= i < n :: Join(cacheDirectory, repos[i].name)
  }

  /** The cache root and one subdirectory per repository. */
  function CacheDirectories(cacheDirectory: Path, repos: seq<Repository>): set<Path> {
    {cacheDirectory} + RepositoryDirectories(cacheDirectory, repos, |repos|)
  }

  lemma RepositoryDirectoriesStep(cacheDirectory: Path, repos: seq<Repository>, n: nat)
    requires n < |repos|
    ensures RepositoryDirectories(cacheDirectory, repos, n + 1)
         == RepositoryDirectories(cacheDirectory, repos, n) + {Join(cacheDirectory, repos[n].name)}
  {
  }

  /** Creating `p` unless it exists extends what has been created by `p`. */
  lemma CreatedStep(dirs0: set<Path>, taken: set<Path>, wanted: set<Path>, p: Path)
    ensures (dirs0 + (wanted - taken)) + ({p} - taken) == dirs0 + ((wanted + {p}) - taken)
  {
  }

  /** Only the names matter for the directories. */
  lemma RepositoryDirectoriesByName(cacheDirectory: Path, a: seq<Repository>, b: seq<Repository>, n: nat)
    requires n <= |a| && n <= |b|
    requires forall i | 0 <= i < n :: a[i].name == b[i].name
    ensures RepositoryDirectories(cacheDirectory, a, n) == RepositoryDirectories(cacheDirectory, b, n)
  {
  }

  class Config {
    var repositories: seq<Repository>
    var cacheDirectory: string
    /** In minutes. */
    var cacheTtl: nat

    /** The configuration as deserialised, each missing field replaced by
        its default. */
    constructor (repositories: Option<seq<Repository>>, cacheDirectory: Option<string>,
                 cacheTtl: Option<nat>)
      ensures this.repositories == if repositories.Some? then repositories.value else []
      ensures this.cacheDirectory == if cacheDirectory.Some? then cacheDirectory.value else "cache"
      ensures this.cacheTtl == if cacheTtl.Some? then cacheTtl.value else 1440
    {
      this.repositories := if repositories.Some? then repositories.value else [];
      this.cacheDirectory := if cacheDirectory.Some? then cacheDirectory.value else DefaultCacheDirectory();
      this.cacheTtl := if cacheTtl.Some? then cacheTtl.value else DefaultCacheTtl();
    }

    function GetRepository(name: string): Option<Repository>
      reads this
    {
      FindRepository(repositories, name)
    }

    /** Start-up: `env` is the value of `CACHE_PATH` if set. */
    method Initialize(env: Option<string>, fs: FileSystem)
      requires fs.Valid()
      modifies this, fs
      ensures cacheDirectory == OverrideCacheDirectory(old(cacheDirectory), env)
      ensures cacheTtl == old(cacheTtl)
      ensures |repositories| == |old(repositories)|
      ensures forall i | 0 <= i < |repositories| ::
        repositories[i].name == old(repositories)[i].name &&
        repositories[i].url == NormalizeUrl(old(repositories)[i].url)
      ensures forall r | r in repositories :: EndsWithSlash(r.url)
      ensures fs.Valid() && fs.files == old(fs.files)
      ensures fs.dirs == old(fs.dirs) + (CacheDirectories(cacheDirectory, repositories) - old(fs.files).Keys)
      ensures forall p | p in CacheDirectories(cacheDirectory, repositories) :: fs.Exists(p)
    {
      if env.Some? && cacheDirectory == DefaultCacheDirectory() {
        cacheDirectory := env.value;
      }

      fs.CreateDirIfMissing(cacheDirectory);

      ghost var repos0 := repositories;
      ghost var dirs0, taken := old(fs.dirs), old(fs.files).Keys;
      var i := 0;
      while i < |repositories|
        invariant 0 <= i <= |repositories| == |repos0|
        invariant forall j | 0 <= j < i ::
          repositories[j] == Repository(repos0[j].name, NormalizeUrl(repos0[j].url))
        invariant forall j | i <= j < |repositories| :: repositories[j] == repos0[j]
        invariant fs.Valid() && fs.files == old(fs.files)
        invariant fs.dirs == dirs0 + (({cacheDirectory} + RepositoryDirectories(cacheDirectory, repos0, i)) - taken)
        modifies this`repositories, fs
      {
        ghost var wanted := {cacheDirectory} + RepositoryDirectories(cacheDirectory, repos0, i);
        assert {cacheDirectory} + RepositoryDirectories(cacheDirectory, repos0, i + 1)
            == wanted + {Join(cacheDirectory, repos0[i].name)} by {
          RepositoryDirectoriesStep(cacheDirectory, repos0, i);
        }
        CreatedStep(dirs0, taken, wanted, Join(cacheDirectory, repos0[i].name));
        PrepareRepository(i, fs);
        i := i + 1;
      }
      RepositoryDirectoriesByName(cacheDirectory, repos0, repositories, i);
    }

    /** One turn of the loop over the repositories: create the repository's
        cache directory unless it exists, and normalise its URL in place. */
    method PrepareRepository(i: nat, fs: FileSystem)
      requires fs.Valid() && i < |repositories|
      modifies this`repositories, fs
      ensures fs.Valid() && fs.files == old(fs.files)
      ensures fs.dirs == old(fs.dirs) + ({Join(cacheDirectory, old(repositories)[i].name)} - old(fs.files).Keys)
      ensures repositories == old(repositories)[i := Repository(old(repositories)[i].name,
                                                                 NormalizeUrl(old(repositories)[i].url))]
    {
      var repositoryCachePath := Join(cacheDirectory, repositories[i].name);
      fs.CreateDirIfMissing(repositoryCachePath);
      if !EndsWithSlash(repositories[i].url) {
        repositories := repositories[i := repositories[i].(url := repositories[i].url + "/")];
      }
    }
  }
}
