/**
 * The small part of `pathlib` the model relies on. A path is absolute and
 * already resolved, given as its components; the empty sequence is "/".
 */
module PathModel {

  type Path = seq<string>

  /** What exists on disk: directories and regular files. */
  datatype FileSystem = FileSystem(dirs: set<Path>, files: set<Path>)

  /** `Path.is_dir()`; the root always is a directory. */
  predicate IsDir(fs: FileSystem, p: Path) {
    p == [] || p in fs.dirs
  }

  /** `Path.exists()`. */
  predicate Exists(fs: FileSystem, p: Path) {
    IsDir(fs, p) || p in fs.files
  }

  /** `Path.name`: the last component, "" for the root. */
  function Name(p: Path): string {
    if p == [] then "" else p[|p| - 1]
  }

  /** Index of the last '.' in `s`, or -1 (`str.rfind`). */
  function LastDot(s: string): (i: int)
    ensures -1 <= i < |s|
    ensures i >= 0 ==> s[i] == '.'
    ensures forall j :: i < j < |s| ==> s[j] != '.'
  {
    if s == [] then -1
    else if s[|s| - 1] == '.' then |s| - 1
    else LastDot(s[..|s| - 1])
  }

  /** `PurePath.suffix`: from the last dot on, unless that dot is first or last. */
  function Suffix(name: string): (sfx: string)
    ensures |sfx| <= |name|
  {
    var i := LastDot(name);
    if 0 < i < |name| - 1 then name[i..] else ""
  }

  /** `PurePath.with_suffix` for a path with a non-empty name. */
  function WithSuffix(p: Path, sfx: string): (q: Path)
    requires p != []
    ensures |q| == |p| && q[..|p| - 1] == p[..|p| - 1]
  {
    var name := Name(p);
    var oldSuffix := Suffix(name);
    p[..|p| - 1] + [name[..|name| - |oldSuffix|] + sfx]
  }

  /** `str(path)` for an absolute POSIX path. */
  function PathString(p: Path): (s: string)
    ensures |s| > 0 && s[0] == '/'
  {
    if p == [] then "/" else JoinFrom(p)
  }

  /** "/c0/c1/.../cn" for a non-empty component list. */
  function JoinFrom(p: Path): (s: string)
    requires p != []
    ensures |s| > 0 && s[0] == '/'
  {
    if |p| == 1 then "/" + p[0] else JoinFrom(p[..|p| - 1]) + "/" + p[|p| - 1]
  }

  /** `a` is `b` or one of its ancestors. */
  predicate IsPrefix(a: Path, b: Path) {
    |a| <= |b| && b[..|a|] == a
  }

  /** Python's `a in b` for strings. */
  predicate IsSubstring(a: string, b: string) {
    exists i | 0 <= i <= |b| :: OccursAt(a, b, i)
  }

  /** `a` occurs in `b` starting at index `i`. */
  predicate OccursAt(a: string, b: string, i: int) {
    0 <= i <= |b| - |a| && b[i..i + |a|] == a
  }
}
