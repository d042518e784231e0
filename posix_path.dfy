/** POSIX path helpers shared by the folder bootstrapper and the cache cleaner:
    `os.path.join` for two components, and the parent directories that
    `Path.mkdir(parents=True)` creates along the way. */
module PosixPath {

  type Path = string

  /** `os.path.join(a, b)` on POSIX: an absolute `b` replaces `a`; otherwise one
      separator is inserted unless `a` is empty or already ends in one. */
  function Join(a: Path, b: Path): Path
  {
    if |b| > 0 && b[0] == '/' then b
    else if a == "" || a[|a| - 1] == '/' then a + b
    else a + "/" + b
  }

  /** The joined path ends with `b`; unless `b` is absolute it starts with
      `a`, and an absolute `b` is the whole result. */
  lemma JoinSpec(a: Path, b: Path)
    ensures var r := Join(a, b);
            && |r| >= |b| && r[|r| - |b|..] == b
            && ((|b| == 0 || b[0] != '/') ==> |r| >= |a| && r[..|a|] == a)
            && ((|b| > 0 && b[0] == '/') ==> r == b)
  {
    var r := Join(a, b);
    if !(|b| > 0 && b[0] == '/') && !(a == "" || a[|a| - 1] == '/') {
      assert r == a + ("/" + b);
    }
  }

  /** The proper ancestors of `p` spelled as prefixes of `p` that end just
      before a separator; `mkdir(parents=True)` creates those that are missing. */
  function Ancestors(p: Path): set<Path>
  {
    set i | 0 < i < |p| && p[i] == '/' :: p[..i]
  }

  /** Joining a relative name onto a plain directory name makes that directory
      an ancestor of the result, so creating the joined path creates it too. */
  lemma JoinHasParent(a: Path, b: Path)
    requires a != "" && a[|a| - 1] != '/'
    requires b != "" && b[0] != '/'
    ensures a in Ancestors(Join(a, b))
    ensures Join(a, b) == a + "/" + b
  {
    var r := Join(a, b);
    assert r[|a|] == '/';
    assert r[..|a|] == a;
  }
}
