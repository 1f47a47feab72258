/** The part of Rust's `std::path` that the manager relies on, for Unix paths
    held as strings. Paths are compared as strings: no normalisation of `.`,
    `..` or repeated separators. */
module Paths {

  /** `Path::is_absolute` on Unix: the path starts at the root. */
  predicate IsAbsolute(p: string) {
    |p| > 0 && p[0] == '/'
  }

  /** `Path::is_relative`. */
  predicate IsRelative(p: string) {
    !IsAbsolute(p)
  }

  /** What `base.join(rel)` puts in front of a relative `rel`: nothing after an
      empty base, no extra separator after a base that already ends in one. */
  function Under(base: string): string {
    if base == [] || base[|base| - 1] == '/' then base else base + "/"
  }

  /** `PathBuf::join`: an absolute `rel` replaces the base. */
  function Join(base: string, rel: string): string {
    if IsAbsolute(rel) then rel else Under(base) + rel
  }

  /** What `base.join(rel)` is: `rel` itself when absolute; otherwise the
      base followed by `rel`, with one separator between them unless the
      base is empty or already ends in one. */
  lemma JoinShape(base: string, rel: string)
    ensures var r := Join(base, rel);
            && (IsAbsolute(rel) ==> r == rel)
            && (IsRelative(rel) ==> |base| <= |r| && r[..|base|] == base && |rel| <= |r| && r[|r| - |rel|..] == rel)
            && (IsRelative(rel) && (base == [] || base[|base| - 1] == '/') ==> |r| == |base| + |rel|)
            && (IsRelative(rel) && base != [] && base[|base| - 1] != '/' ==> |r| == |base| + 1 + |rel| && r[|base|] == '/')
  {
  }

  /** A single path component: no separator in it. */
  predicate IsName(s: string) {
    s != [] && forall i :: 0 <= i < |s| ==> s[i] != '/'
  }

  /** The directory a path lives in: everything before its last separator
      (empty for a bare name, which lives in the working directory, and for a
      name directly under the root). */
  function Parent(p: string): (r: string)
    ensures |r| <= |p| && r == p[..|r|]
  {
    if p == [] then []
    else if p[|p| - 1] == '/' then p[..|p| - 1]
    else Parent(p[..|p| - 1])
  }

  /** The proper ancestors of `d` that `fs::create_dir_all(d)` creates along
      the way (the root itself is not listed). */
  function Ancestors(d: string): set<string> {
    set i | 0 < i < |d| && d[i] == '/' :: d[..i]
  }

  /** Every directory `fs::create_dir_all(d)` makes exist. */
  function Chain(d: string): set<string> {
    Ancestors(d) + {d}
  }

  /** `base.join(name)` for a name with no separator yields a path whose
      parent is `base` (read without a trailing separator). */
  lemma {:induction false} ParentOfJoin(base: string, name: string)
    requires IsName(name)
    ensures Parent(Join(base, name)) == if Under(base) == [] then [] else Under(base)[..|Under(base)| - 1]
  {
    var u := Under(base);
    var k := |name|;
    assert name[..k] == name;
    while k > 0
      invariant 0 <= k <= |name|
      invariant Parent(u + name) == Parent(u + name[..k])
    {
      var s := u + name[..k];
      assert s[|s| - 1] == name[k - 1] != '/';
      assert s[..|s| - 1] == u + name[..k - 1];
      k := k - 1;
    }
    assert u + name[..0] == u;
    if u != [] {
      assert u[|u| - 1] == '/';
    }
  }

  /** Joining two relative names under the same base gives distinct paths
      exactly when the names differ. */
  lemma JoinDistinct(base: string, a: string, b: string)
    requires IsRelative(a) && IsRelative(b)
    ensures Join(base, a) == Join(base, b) <==> a == b
  {
    var u := Under(base);
    if Join(base, a) == Join(base, b) {
      assert a == (u + a)[|u|..];
      assert b == (u + b)[|u|..];
    }
  }

  /** Joining a name onto a joined directory is the same as joining the
      two-component relative path onto the base. */
  lemma JoinNested(base: string, dir: string, name: string)
    requires IsName(dir) && IsRelative(name)
    ensures Join(Join(base, dir), name) == Join(base, dir + "/" + name)
  {
    var j := Under(base) + dir;
    assert j[|j| - 1] == dir[|dir| - 1];
    assert Under(j) == j + "/";
  }
}
