/**
 * Filesystem paths as strings joined with '/', the way the proxy builds them
 * with `format!` and the way `read_dir` reports the entries of a directory.
 * Paths are compared as strings: no `.`/`..` resolution and no collapsing
 * of repeated separators.
 */
module Paths {

  type Path = string

  /** A single path component: non-empty and free of separators. */
  predicate IsName(n: string) {
    n != [] && '/' !in n
  }

  /** `{dir}/{name}` */
  function Join(dir: Path, name: string): Path {
    dir + "/" + name
  }

  /** Index of the last '/' in `p`, or -1 when there is none. */
  function LastSlash(p: Path): (k: int)
    ensures -1 <= k < |p|
    ensures 0 <= k ==> p[k] == '/'
    ensures forall i | k < i < |p| :: p[i] != '/'
  {
    if |p| == 0 then -1
    else if p[|p| - 1] == '/' then |p| - 1
    else LastSlash(p[..|p| - 1])
  }

  /** `p` has a parent directory and a non-empty last component. */
  predicate HasParent(p: Path) {
    0 <= LastSlash(p) < |p| - 1
  }

  function DirName(p: Path): Path
    requires HasParent(p)
  {
    p[..LastSlash(p)]
  }

  function BaseName(p: Path): string
    requires HasParent(p)
  {
    p[LastSlash(p) + 1..]
  }

  /** `p` is one of the entries `read_dir(d)` lists. */
  predicate IsEntryOf(d: Path, p: Path) {
    HasParent(p) && DirName(p) == d
  }

  /** Joining a name onto a directory gives an entry of that directory whose
      last component is the name. */
  lemma JoinSplits(dir: Path, name: string)
    requires IsName(name)
    ensures HasParent(Join(dir, name))
    ensures DirName(Join(dir, name)) == dir
    ensures BaseName(Join(dir, name)) == name
  {
    var p := Join(dir, name);
    var k := LastSlash(p);
    assert p[|dir|] == '/';
    forall i | |dir| < i < |p|
      ensures p[i] != '/'
    {
      assert p[i] == name[i - |dir| - 1];
    }
    assert k == |dir|;
    assert p[..k] == dir;
    assert p[k + 1..] == name;
  }
}
