/**
 * The local filesystem the cache lives on, reduced to what the proxy uses:
 * a set of directories and a map from file paths to regular files, each
 * with its bytes and its last-modified time in whole seconds.
 */
module Storage {
  import opened Paths

  newtype byte = b: int | 0 <= b < 256

  type Bytes = seq<byte>

  /** A regular file: its content and its modification time. */
  datatype Entry = Entry(content: Bytes, mtime: nat)

  /** The bytes of a stream of chunks, in order. */
  function Concat(chunks: seq<Bytes>): Bytes {
    if chunks == [] then [] else chunks[0] + Concat(chunks[1..])
  }

  lemma {:induction false} ConcatAppend(a: seq<Bytes>, b: seq<Bytes>)
    ensures Concat(a + b) == Concat(a) + Concat(b)
  {
    if a == [] {
      assert a + b == b;
    } else {
      assert (a + b)[1..] == a[1..] + b;
      ConcatAppend(a[1..], b);
    }
  }

  /** The file at `p`, if there is one, was not modified after `now`, so its
      age is defined (`SystemTime::duration_since` fails otherwise). */
  predicate NotInFutureAt(files: map<Path, Entry>, p: Path, now: nat) {
    p in files ==> files[p].mtime <= now
  }

  class FileSystem {
    var dirs: set<Path>
    var files: map<Path, Entry>

    /** Nothing is both a directory and a regular file. */
    ghost predicate Valid()
      reads this
    {
      dirs !! files.Keys
    }

    /** `Path::exists`: true for directories and files alike. */
    predicate Exists(p: Path)
      reads this
    {
      p in dirs || p in files
    }

    /** What `read_dir(d)` lists: every existing path directly inside `d`. */
    function Entries(d: Path): set<Path>
      reads this
    {
      set p | p in dirs + files.Keys && IsEntryOf(d, p)
    }

    constructor (dirs: set<Path>, files: map<Path, Entry>)
      requires dirs !! files.Keys
      ensures Valid()
      ensures this.dirs == dirs && this.files == files
    {
      this.dirs := dirs;
      this.files := files;
    }

    /** `create_dir` of a path that does not exist yet. */
    method CreateDir(p: Path)
      requires Valid() && !Exists(p)
      modifies this
      ensures Valid()
      ensures dirs == old(dirs) + {p} && files == old(files)
    {
      dirs := dirs + {p};
    }

    /** `if !p.exists() { create_dir(p) }`: an existing directory or file is
        left alone. */
    method CreateDirIfMissing(p: Path)
      requires Valid()
      modifies this
      ensures Valid() && Exists(p)
      ensures dirs == old(dirs) + ({p} - old(files).Keys) && files == old(files)
    {
      if !Exists(p) {
        CreateDir(p);
      }
    }

    /** `remove_file` of an existing regular file. */
    method RemoveFile(p: Path)
      requires Valid() && p in files
      modifies this
      ensures Valid()
      ensures dirs == old(dirs) && files == old(files) - {p}
    {
      files := files - {p};
    }

    /** `File::create`: creates the file, or truncates it if it exists. */
    method Create(p: Path, now: nat)
      requires Valid() && p !in dirs
      modifies this
      ensures Valid()
      ensures dirs == old(dirs) && files == old(files)[p := Entry([], now)]
    {
      files := files[p := Entry([], now)];
    }

    /** `write_all` on an open file: appends and refreshes the mtime. */
    method WriteAll(p: Path, bytes: Bytes, now: nat)
      requires Valid() && p in files
      modifies this
      ensures Valid()
      ensures dirs == old(dirs)
      ensures files == old(files)[p := Entry(old(files)[p].content + bytes, now)]
    {
      files := files[p := Entry(files[p].content + bytes, now)];
    }
  }
}
