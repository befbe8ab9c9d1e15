# apt-cache: a Dafny model of the cache lifecycle

apt-cache is a caching reverse proxy for package repositories. A client asks
for `/{repository}/{path}`. The proxy either serves the copy of that file it
already has on disk, or fetches it from the repository's upstream URL. In the
second case it streams the file to the client and writes it to disk at the
same time. Cached files expire after a time-to-live (TTL), given in minutes.
Expired files are deleted when a request finds them, and also by a
background worker that sweeps the cache directory.

This project models that core in Dafny and proves properties of the model:

- `Paths` models paths as strings joined with `/`. It defines the directory
  and the last component of a path, which is how `read_dir` names an entry.
- `Storage` models the local disk as a class `FileSystem`. The class holds a
  set of directories and a map from file paths to `Entry(content, mtime)`.
  Its methods are the operations the proxy calls: `create_dir`,
  `remove_file`, `File::create` (which truncates) and `write_all`. Its
  function `Entries(d)` stands for `read_dir(d)`: the set of existing
  directories and files directly inside `d`, in no particular order.
- `Config` models `src/config.rs`. It covers the repository list, the
  defaults, the lookup by name, and `Initialize`. `Initialize` applies the
  `CACHE_PATH` override, creates the cache directories, and normalises every
  upstream URL in place.
- `Request` models `src/request.rs`:
  - the cache file path;
  - the TTL check, which deletes an expired file when it reads it;
  - the cache lookup;
  - the tee, here a sequential loop: each upstream chunk is appended to the
    cache file and also passed on to the client;
  - the request orchestration;
  - one pass of the TTL sweep.

  Each operation that touches the disk is a method. Its contract ties the
  method to a pure function of the old store: `CachedLookup`, `Resolve` or
  `SweepPass`. The properties of the pipeline are lemmas about those
  functions.

Some inputs come from outside the model, so they are parameters:

- the clock, `now`, in seconds;
- the `CACHE_PATH` environment variable, as an `Option<string>`;
- SHA-1, as a function from a path to a 40-character lowercase hex digest;
- the upstream server, as a function from a URL to a `Response(status, chunks)`.

## Model

| member | source | states |
|---|---|---|
| `Config.Config.constructor` | src/config.rs:6-28 | a field missing from the configuration file takes its default: no repositories, cache directory `"cache"`, TTL 1440 minutes (one day) |
| `Config.FindRepository` | src/config.rs:31-33 | returns the first repository whose name equals the argument exactly; returns `None` if and only if no repository has that name |
| `Config.OverrideCacheDirectory` | src/config.rs:36-40 | `CACHE_PATH` replaces the cache directory only when the variable is set and the directory is still the default `"cache"`; otherwise the directory is unchanged |
| `Config.NormalizeUrl` | src/config.rs:58-60 | the result ends in `/`; a URL already ending in `/` is unchanged; any other URL gets exactly one `/` appended |
| `Config.NormalizeUrlIdempotent` | src/config.rs:58-60 | normalising twice gives the same URL as normalising once |
| `Storage.FileSystem.CreateDirIfMissing` | src/config.rs:42-47 | afterwards the path exists; a directory or file already there is left alone; otherwise exactly that directory is added |
| `Config.Config.PrepareRepository` | src/config.rs:50-60 | one turn of the repository loop: `{cache_directory}/{name}` is created unless a directory or file is already there, and that repository's URL is replaced by its normalised form in place; no other repository and no file changes |
| `Config.Config.Initialize` | src/config.rs:35-62 | the cache directory is the overridden one and the TTL is unchanged; the repositories keep their number, order and names; each URL is replaced by its normalised form, so every URL ends in `/`; the cache root and one `{cache_directory}/{name}` directory per repository now exist; no file changes, and the only new directories are those paths that did not already exist |
| `Request.CacheFilePath` | src/request.rs:24-29 | the path is a file directly inside `{cache_directory}/{repository}`; its last component is the hex SHA-1 of the request path alone and contains no `/` |
| `Request.CacheFilePathCollision` | src/request.rs:24-29 | two requests get the same cache file if and only if they name the same repository and their paths have equal digests |
| `Request.CheckFileTtl` | src/request.rs:61-70 | returns false exactly when the age `now - mtime` is at least `cache_ttl * 60` seconds, so an age equal to the TTL counts as expired; in that case the file is deleted; when it returns true the store is unchanged |
| `Request.CachedLookup` | src/request.rs:74-92 | a hit happens exactly when the entry exists and is not expired, and it serves the stored bytes without changing the store; an absent entry is a miss that changes nothing; an expired entry is a miss that removes it |
| `Request.GetCachedFile` | src/request.rs:74-92 | its result and the store it leaves are those of `CachedLookup` on the request's cache path; directories are unchanged |
| `Request.CacheFile` | src/request.rs:32-57 | the chunks passed on to the client are the upstream chunks, in the same order; the cache file ends up holding exactly their concatenation, and any earlier content is discarded; no other file and no directory changes |
| `Request.RequestFile` | src/request.rs:103-140 | its reply, the store it leaves and the upstream URL it fetches (if any) are those that `Resolve` gives for the old store |
| `Request.UnknownRepository` | src/request.rs:108-110 | for any path, a repository name that matches no configured repository gives `Err(RepositoryNotFound)` with the store unchanged and no upstream fetch |
| `Request.HitServesStoredBytes` | src/request.rs:111-116 | a live entry gives status 200 with `cached = true` and the stored bytes; there is no upstream fetch and the store is unchanged |
| `Request.MissForwardsUpstream` | src/request.rs:117-131 | on a miss (entry absent or expired) the proxy fetches `repo.url ++ path` and replies with the upstream status and body unchanged, marked as not cached |
| `Request.OnlyOwnEntryChanges` | src/request.rs:117-139 | a request changes at most its own cache file; a non-200 reply leaves no entry there, though an expired one may already be gone; a 200 miss leaves an entry holding exactly the body it served, stamped `now` |
| `Request.MissThenHit` | src/request.rs:111-139 | after a 200 miss, repeating the request before the TTL runs out gives a hit with the bytes the miss served, and fetches nothing |
| `Request.ExpiredIsRefetched` | src/request.rs:79-118 | a request whose entry's age has reached the TTL is a miss that fetches `repo.url ++ path` again |
| `Request.DebianScenario` | src/request.rs:103-140 | the scenario for repository `debian` with a 1-minute TTL: the first request is a 200 miss serving `ABC`, and afterwards the store holds exactly one file, the cache file, with `ABC` stamped at that time; a request 59 seconds later is a hit with `ABC` and fetches nothing; a request 60 seconds later fetches upstream again |
| `Request.SweepOnce` | src/request.rs:143-157 | one pass leaves directories unchanged, and leaves exactly the store `SweepPass` describes, whatever order the entries are visited in |
| `Request.SweepRemovesExactlyExpired` | src/request.rs:145-155 | a pass deletes a file if and only if two things hold: the file is a regular file inside a directory directly under the cache root, and its age has reached the TTL; every other file keeps its entry |
| `Request.SweepSparesTopLevelFiles` | src/request.rs:146-150 | a file directly inside the cache root is never deleted by a pass |
| `Request.SweepIdempotent` | src/request.rs:145-155 | a second pass at the same time deletes nothing more |
| `Request.SweepAgreesWithLookup` | src/request.rs:61-70 | the sweep and the read-time check use the same expiry test; a lookup after a pass answers as it would have before it; a cache file in a repository directory survives a pass exactly when a lookup at that time would be a hit |

## Left out

- The upstream HTTP client (`reqwest::get`, `bytes_stream`) is not modelled. It is replaced by a function `fetch` from a URL to a status and a list of chunks, and `RequestFile` reports the URL it fetches as a ghost output.
- An upstream body that fails part-way (`item.unwrap()` and `bytes.unwrap()`) would panic. The model has no such failure: every chunk in a `Response` arrives.
- Concurrency is not modelled: the tokio runtime, the writer task started by `tokio::spawn`, the bounded channel of capacity 1024 and its back-pressure. The tee is a sequential loop. It sends each chunk to the writer and then yields it, so it keeps the order of bytes on both sides.
- The races are not modelled: the sweep against readers, and two concurrent misses for the same path writing the same file.
- SHA-1 internals are not modelled. The hash is a parameter whose results are 40 lowercase hex characters. The proxy hashes the path's UTF-8 bytes; the model applies the hash to the path string itself.
- The wall clock is a parameter `now`, in seconds. A request, and a whole sweep pass, run at one instant, and every write stamps the file with that `now`. Whole seconds stand in for `SystemTime` precision.
- `duration_since(..).unwrap()` panics when the mtime of the file being checked lies after `now`. The model assumes a clock that does not run backwards for those files only: `CheckFileTtl` requires it of the file it checks; `CachedLookup` and `GetCachedFile` require it of the request's cache file (`NotInFutureAt`); `Resolve` and `RequestFile` require it of that file when the repository is known (`RequestClockOk`); `SweepPass` and `SweepOnce` require it of the files a pass visits (`SweepClockOk`). `CacheFile`, `Initialize` and `PrepareRepository` make no such assumption.
- `cache_ttl * 60` is computed on unbounded naturals. The 64-bit overflow is not modelled.
- The sweep's endless `loop` and its 60-second `sleep` are left out. `SweepOnce` models one pass.
- I/O failures that `.unwrap()` or `.expect()` turn into panics are excluded by preconditions. `CheckFileTtl` requires that the file exists. `GetCachedFile`, `CacheFile` and `RequestFile` require that the cache path is not a directory. `SweepOnce` requires that the cache directory exists.
- The disk model does not check that parent directories exist, so a `create_dir` or `File::create` under a missing parent does not fail in the model. Read and write permissions are not modelled either.
- Paths are compared as strings. The model does not resolve `.` or `..` and does not collapse repeated separators.
- On a hit, the file is read back through `ReaderStream`. The model gives the body as the file's bytes; the chunk boundaries of that stream are not modelled. `Reply.body` is the concatenation of the body stream in all cases.
- Logging (`println!`) is not modelled. Neither is the `disable_logging` setting that `src/request.rs` reads, which is not declared in `src/config.rs`.
- Reading the configuration is not modelled: `read_config`, the `CONFIG_PATH` variable and TOML parsing. The constructor of `Config.Config` takes the fields as parsed, with missing fields as `None`. The `CACHE_PATH` value is passed to `Initialize`.
- `src/main.rs` (routing, the listener, the `X-Cached` header) is not part of this model. `src/error.rs` is reduced to the datatype `AptCacheError`; its mapping to a 404 response with a JSON body is not modelled.
- CacheFile, OnlyOwnEntryChanges and MissThenHit assume that the client reads the whole body before anything else happens. In the code, `File::create` truncates the cache file when the reply is built (src/request.rs:39 and 138), but the chunks are written only as the client polls the stream (src/request.rs:49-56). A client that disconnects early leaves a truncated file with a fresh mtime. `get_cached_file` (src/request.rs:81) then serves it as a hit until the TTL runs out, and a request made while the body is still streaming is a hit on the partial file. The model has neither state: the cache file goes from its old content to the full body in one step.
- When a write or the upstream fails part-way, the code removes no partial cache file and sends no 502-class reply: those paths panic. The model leaves them out, as above.
- The code tests `duration >= ttl`, so an age equal to the TTL already counts as expired. `Expired` follows the code.
