/**
 * The module-level helpers of brownie/project/main.py and the two loops of
 * `Project.__init__`: which source files are read, which stored build
 * artifacts survive, the default project name, the search for an enclosing
 * project, the checks before creating one, and `sys.path`.
 */
module ProjectHelpers {
  import opened Wrappers
  import opened PathModel
  import opened ConfigFiles
  import opened Staleness

  // ---------------------------------------------------------------- strings

  /** The text `s` ends with `suffix` (`str.endswith`). */
  predicate EndsWith(s: string, suffix: string) {
    |suffix| <= |s| && s[|s| - |suffix|..] == suffix
  }

  /** Every occurrence of "/_" in `a + b` lies inside `a` or inside `b` when `b` starts with '/'. */
  lemma SubstringOfJoin(a: string, b: string)
    requires b != [] && b[0] == '/'
    ensures IsSubstring("/_", a + b) <==> IsSubstring("/_", a) || IsSubstring("/_", b)
  {
    if IsSubstring("/_", a + b) {
      var i :| 0 <= i <= |a + b| && OccursAt("/_", a + b, i);
      if i + 2 <= |a| {
        assert a[i..i + 2] == (a + b)[i..i + 2];
        assert OccursAt("/_", a, i);
      } else {
        assert (a + b)[i + 1] == "/_"[1] == '_';
        assert i >= |a|;
        assert b[i - |a|..i - |a| + 2] == (a + b)[i..i + 2];
        assert OccursAt("/_", b, i - |a|);
      }
    }
    if IsSubstring("/_", a) {
      var i :| 0 <= i <= |a| && OccursAt("/_", a, i);
      assert (a + b)[i..i + 2] == a[i..i + 2];
      assert OccursAt("/_", a + b, i);
    }
    if IsSubstring("/_", b) {
      var i :| 0 <= i <= |b| && OccursAt("/_", b, i);
      assert (a + b)[|a| + i..|a| + i + 2] == b[i..i + 2];
      assert OccursAt("/_", a + b, |a| + i);
    }
  }

  /** The POSIX string of a longer path continues the string of its prefix. */
  lemma {:induction false} PathStringOfJoin(a: Path, b: Path)
    requires a != [] && b != []
    ensures PathString(a + b) == PathString(a) + PathString(b)
    decreases |b|
  {
    if |b| == 1 {
      assert (a + b)[..|a + b| - 1] == a;
    } else {
      var front := b[..|b| - 1];
      assert (a + b)[..|a + b| - 1] == a + front;
      assert b[..|b| - 1] == front;
      PathStringOfJoin(a, front);
    }
  }

  // ------------------------------------------------------- source collection

  /** `path.relative_to(project_path).as_posix()` for a file below the project root. */
  function RelativeString(rel: Path): string
    requires rel != []
  {
    PathString(rel)[1..]
  }

  /**
   * The filter as written: `"/_" in path.as_posix()` tests the absolute path,
   * so a "/_" anywhere above the project root skips every source file.
   */
  predicate SkippedAsWritten(root: Path, rel: Path) {
    IsSubstring("/_", PathString(root + rel))
  }

  /** The filter as intended: a file below the project root is skipped when a component starts with "_". */
  predicate Skipped(rel: Path) {
    IsSubstring("/_", PathString(rel))
  }

  /** Below a root without "/_" in its own string, the two filters agree. */
  lemma SkipFiltersAgree(root: Path, rel: Path)
    requires rel != [] && !IsSubstring("/_", PathString(root))
    ensures SkippedAsWritten(root, rel) <==> Skipped(rel)
  {
    if root == [] {
      assert root + rel == rel;
    } else {
      PathStringOfJoin(root, rel);
      SubstringOfJoin(PathString(root), PathString(rel));
    }
  }

  lemma HomeRootString()
    ensures PathString(["home", "_me", "proj"]) == "/home/_me/proj"
  {
    var root: Path := ["home", "_me", "proj"];
    assert root[..2] == ["home", "_me"] && root[..2][..1] == ["home"];
    assert JoinFrom(["home"]) == "/home";
    assert JoinFrom(["home", "_me"]) == "/home" + "/" + "_me";
    assert JoinFrom(root) == "/home/_me" + "/" + "proj";
  }

  lemma TokenString()
    ensures PathString(["contracts", "Token.sol"]) == "/contracts/Token.sol"
  {
    var rel: Path := ["contracts", "Token.sol"];
    assert rel[..1] == ["contracts"];
    assert JoinFrom(["contracts"]) == "/contracts";
    assert JoinFrom(rel) == "/contracts" + "/" + "Token.sol";
  }

  /** A text without '_' holds no "/_". */
  lemma NoUnderscoreNoSkip(s: string)
    requires forall j | 0 <= j < |s| :: s[j] != '_'
    ensures !IsSubstring("/_", s)
  {
    forall i | 0 <= i <= |s| ensures !OccursAt("/_", s, i) {
      if i + 2 <= |s| {
        assert s[i..i + 2][1] == s[i + 1] != '_' == "/_"[1];
      }
    }
  }

  /** A project under /home/_me skips `contracts/Token.sol` as written, and keeps it as intended. */
  lemma SkipFilterCounterexample()
    ensures SkippedAsWritten(["home", "_me", "proj"], ["contracts", "Token.sol"])
    ensures !Skipped(["contracts", "Token.sol"])
  {
    var root: Path := ["home", "_me", "proj"];
    var rel: Path := ["contracts", "Token.sol"];
    HomeRootString();
    TokenString();
    PathStringOfJoin(root, rel);
    var full := "/home/_me/proj" + "/contracts/Token.sol";
    assert full[5..7] == "/_";
    assert OccursAt("/_", PathString(root + rel), 5);
    var s := "/contracts/Token.sol";
    assert forall j | 0 <= j < |s| :: s[j] != '_';
    NoUnderscoreNoSkip(s);
  }

  /** The entries read: the text of each globbed file that is not skipped, by project-relative path. */
  function SourceMap(found: seq<(Path, string)>): map<string, string>
    requires forall i | 0 <= i < |found| :: found[i].0 != []
  {
    if found == [] then map[]
    else
      var n := |found| - 1;
      var prev := SourceMap(found[..n]);
      if Skipped(found[n].0) then prev else prev[RelativeString(found[n].0) := found[n].1]
  }

  /** The name under which a globbed file is read, or None when the filter skips it. */
  function Entry(file: (Path, string)): Option<string> {
    if file.0 == [] || Skipped(file.0) then None else Some(RelativeString(file.0))
  }

  /** The names `entry` gives to the members of `xs`. */
  function NamesBy<T>(xs: seq<T>, entry: T -> Option<string>): set<string> {
    set i | 0 <= i < |xs| && entry(xs[i]).Some? :: entry(xs[i]).value
  }

  /** Extending a list by one element adds at most that element's name. */
  lemma NamesBySnoc<T>(xs: seq<T>, entry: T -> Option<string>)
    requires xs != []
    ensures var n := |xs| - 1;
      NamesBy(xs, entry) == NamesBy(xs[..n], entry) + (if entry(xs[n]).Some? then {entry(xs[n]).value} else {})
  {
    var n := |xs| - 1;
    var front := xs[..n];
    forall k | k in NamesBy(xs, entry)
      ensures k in NamesBy(front, entry) || (entry(xs[n]).Some? && k == entry(xs[n]).value)
    {
      var i :| 0 <= i < |xs| && entry(xs[i]).Some? && entry(xs[i]).value == k;
      if i < n {
        assert front[i] == xs[i];
      }
    }
    forall k | k in NamesBy(front, entry) ensures k in NamesBy(xs, entry) {
      var i :| 0 <= i < |front| && entry(front[i]).Some? && entry(front[i]).value == k;
      assert front[i] == xs[i];
    }
  }

  /** The project-relative names of the globbed files that are not skipped. */
  function KeptNames(found: seq<(Path, string)>): set<string> {
    NamesBy(found, Entry)
  }

  /** Exactly the files that pass the filter are read, each under its project-relative path. */
  lemma {:induction false} SourceMapKeys(found: seq<(Path, string)>)
    requires forall i | 0 <= i < |found| :: found[i].0 != []
    ensures SourceMap(found).Keys == KeptNames(found)
  {
    if found != [] {
      var n := |found| - 1;
      SourceMapKeys(found[..n]);
      NamesBySnoc(found, Entry);
    }
  }

  /** Every text read is the content of a globbed file that passes the filter. */
  lemma {:induction false} SourceMapTexts(found: seq<(Path, string)>, k: string)
    requires forall i | 0 <= i < |found| :: found[i].0 != []
    requires k in SourceMap(found)
    ensures exists i | 0 <= i < |found| ::
      !Skipped(found[i].0) && RelativeString(found[i].0) == k && SourceMap(found)[k] == found[i].1
  {
    var n := |found| - 1;
    var front := found[..n];
    if Skipped(found[n].0) || k != RelativeString(found[n].0) {
      SourceMapTexts(front, k);
      var i :| 0 <= i < |front| && !Skipped(front[i].0) && RelativeString(front[i].0) == k
        && SourceMap(front)[k] == front[i].1;
      assert front[i] == found[i];
    } else {
      assert SourceMap(found)[k] == found[n].1;
    }
  }

  /** The first loop of `Project.__init__`: read every globbed `.sol` file that passes the filter. */
  method CollectSources(found: seq<(Path, string)>) returns (sources: map<string, string>)
    requires forall i | 0 <= i < |found| :: found[i].0 != []
    ensures sources == SourceMap(found)
  {
    sources := map[];
    var i := 0;
    while i < |found|
      invariant 0 <= i <= |found|
      invariant sources == SourceMap(found[..i])
    {
      assert found[..i + 1][..i] == found[..i];
      var rel := found[i].0;
      if !Skipped(rel) {
        sources := sources[RelativeString(rel) := found[i].1];
      }
      i := i + 1;
    }
    assert found[..|found|] == found;
  }

  // ----------------------------------------------------- build validation

  /** A stored build file: not valid JSON, or the keys it holds and the artifact they describe. */
  datatype BuildFile = Unparseable | Parsed(keys: set<string>, artifact: Artifact)

  /**
   * Whether a stored build file is kept: it must hold every key of BUILD_KEYS
   * and its `sourcePath` must exist under the project root. Unparseable input
   * counts as `{}`; reading `sourcePath` from a file without it raises KeyError.
   */
  function Keep(file: BuildFile, buildKeys: set<string>, sourceExists: string -> bool): (r: Result<bool, PyException>)
    ensures r == Success(true) ==> file.Parsed? && buildKeys <= file.keys && sourceExists(file.artifact.sourcePath)
    ensures file.Parsed? && buildKeys <= file.keys && "sourcePath" in file.keys ==>
      r == Success(sourceExists(file.artifact.sourcePath))
    ensures file.Parsed? && !(buildKeys <= file.keys) ==> r == Success(false)
    ensures file.Unparseable? && buildKeys != {} ==> r == Success(false)
  {
    if file.Unparseable? then
      if buildKeys == {} then Failure(KeyError) else Success(false)
    else if !(buildKeys <= file.keys) then Success(false)
    else if "sourcePath" !in file.keys then Failure(KeyError)
    else Success(sourceExists(file.artifact.sourcePath))
  }

  /** The artifacts kept and the build files deleted. */
  datatype Validated = Validated(build: Build, unlinked: seq<Path>)

  /** The second loop of `Project.__init__` over the stored build files, in glob order. */
  function Validate(files: seq<(Path, BuildFile)>, buildKeys: set<string>, sourceExists: string -> bool): Result<Validated, PyException> {
    if files == [] then Success(Validated(map[], []))
    else
      var n := |files| - 1;
      var prev := Validate(files[..n], buildKeys, sourceExists);
      if prev.Failure? then prev
      else
        var keep := Keep(files[n].1, buildKeys, sourceExists);
        if keep.Failure? then Failure(keep.error)
        else if keep.value then
          var a := files[n].1.artifact;
          Success(Validated(prev.value.build[a.contractName := a], prev.value.unlinked))
        else Success(Validated(prev.value.build, prev.value.unlinked + [files[n].0]))
  }

  /** The file at index `i` is kept. */
  predicate KeptAt(files: seq<(Path, BuildFile)>, i: int, buildKeys: set<string>, sourceExists: string -> bool)
    requires 0 <= i < |files|
  {
    Keep(files[i].1, buildKeys, sourceExists) == Success(true)
  }

  /** Validation succeeds exactly when no stored file raises. */
  lemma {:induction false} ValidateSucceeds(files: seq<(Path, BuildFile)>, buildKeys: set<string>, sourceExists: string -> bool)
    ensures Validate(files, buildKeys, sourceExists).Success? <==>
      forall i | 0 <= i < |files| :: Keep(files[i].1, buildKeys, sourceExists).Success?
  {
    if files != [] {
      var n := |files| - 1;
      var front := files[..n];
      assert forall i | 0 <= i < n :: front[i] == files[i];
      ValidateSucceeds(front, buildKeys, sourceExists);
    }
  }

  /** Every kept file's artifact is in the build under its contract name. */
  lemma {:induction false} ValidateKeepsKept(files: seq<(Path, BuildFile)>, buildKeys: set<string>, sourceExists: string -> bool)
    requires Validate(files, buildKeys, sourceExists).Success?
    ensures forall i | 0 <= i < |files| && KeptAt(files, i, buildKeys, sourceExists) ::
      files[i].1.artifact.contractName in Validate(files, buildKeys, sourceExists).value.build
  {
    if files != [] {
      var n := |files| - 1;
      var front := files[..n];
      ValidateKeepsKept(front, buildKeys, sourceExists);
      forall i | 0 <= i < n && KeptAt(files, i, buildKeys, sourceExists)
        ensures KeptAt(front, i, buildKeys, sourceExists)
      {
        assert front[i] == files[i];
      }
    }
  }

  /** Every artifact in the build comes from a kept file and is stored under its own contract name. */
  lemma {:induction false} ValidateOnlyKept(files: seq<(Path, BuildFile)>, buildKeys: set<string>, sourceExists: string -> bool)
    requires Validate(files, buildKeys, sourceExists).Success?
    ensures var b := Validate(files, buildKeys, sourceExists).value.build;
      forall k | k in b :: exists i | 0 <= i < |files| ::
        KeptAt(files, i, buildKeys, sourceExists) && b[k] == files[i].1.artifact && files[i].1.artifact.contractName == k
  {
    if files != [] {
      var n := |files| - 1;
      var front := files[..n];
      ValidateOnlyKept(front, buildKeys, sourceExists);
      var b := Validate(files, buildKeys, sourceExists).value.build;
      var prev := Validate(front, buildKeys, sourceExists).value.build;
      forall k | k in b
        ensures exists i | 0 <= i < |files| ::
          KeptAt(files, i, buildKeys, sourceExists) && b[k] == files[i].1.artifact && files[i].1.artifact.contractName == k
      {
        if !(KeptAt(files, n, buildKeys, sourceExists) && k == files[n].1.artifact.contractName) {
          var i :| 0 <= i < |front| && KeptAt(front, i, buildKeys, sourceExists)
            && prev[k] == front[i].1.artifact && front[i].1.artifact.contractName == k;
          assert front[i] == files[i];
        }
      }
    }
  }

  /** Exactly the files that are not kept are deleted. */
  lemma {:induction false} ValidateUnlinksRejected(files: seq<(Path, BuildFile)>, buildKeys: set<string>, sourceExists: string -> bool)
    requires Validate(files, buildKeys, sourceExists).Success?
    ensures forall p :: p in Validate(files, buildKeys, sourceExists).value.unlinked <==>
      exists i | 0 <= i < |files| :: !KeptAt(files, i, buildKeys, sourceExists) && files[i].0 == p
  {
    if files != [] {
      var n := |files| - 1;
      var front := files[..n];
      ValidateUnlinksRejected(front, buildKeys, sourceExists);
      var u := Validate(files, buildKeys, sourceExists).value.unlinked;
      var prev := Validate(front, buildKeys, sourceExists).value.unlinked;
      forall p ensures p in u <==> exists i | 0 <= i < |files| :: !KeptAt(files, i, buildKeys, sourceExists) && files[i].0 == p
      {
        if p in prev {
          var i :| 0 <= i < |front| && !KeptAt(front, i, buildKeys, sourceExists) && front[i].0 == p;
          assert front[i] == files[i];
        }
        if exists i | 0 <= i < |files| :: !KeptAt(files, i, buildKeys, sourceExists) && files[i].0 == p {
          var i :| 0 <= i < |files| && !KeptAt(files, i, buildKeys, sourceExists) && files[i].0 == p;
          if i < n {
            assert front[i] == files[i];
            assert !KeptAt(front, i, buildKeys, sourceExists);
          }
        }
      }
    }
  }

  /**
   * Validation succeeds unless a file raises; then every file is either kept
   * (its artifact added under its contract name) or deleted, never both, and
   * nothing else is added.
   */
  lemma ValidateSorts(files: seq<(Path, BuildFile)>, buildKeys: set<string>, sourceExists: string -> bool)
    ensures var r := Validate(files, buildKeys, sourceExists);
      && (r.Success? <==> forall i | 0 <= i < |files| :: Keep(files[i].1, buildKeys, sourceExists).Success?)
      && (r.Success? ==>
        && (forall i | 0 <= i < |files| && KeptAt(files, i, buildKeys, sourceExists) ::
              files[i].1.artifact.contractName in r.value.build)
        && (forall k | k in r.value.build :: exists i | 0 <= i < |files| ::
              KeptAt(files, i, buildKeys, sourceExists) && r.value.build[k] == files[i].1.artifact
              && files[i].1.artifact.contractName == k)
        && (forall p :: p in r.value.unlinked <==> exists i | 0 <= i < |files| ::
              !KeptAt(files, i, buildKeys, sourceExists) && files[i].0 == p))
  {
    ValidateSucceeds(files, buildKeys, sourceExists);
    if Validate(files, buildKeys, sourceExists).Success? {
      ValidateKeepsKept(files, buildKeys, sourceExists);
      ValidateOnlyKept(files, buildKeys, sourceExists);
      ValidateUnlinksRejected(files, buildKeys, sourceExists);
    }
  }

  /** The second loop of `Project.__init__`: keep the valid stored artifacts, delete the rest. */
  method ValidateBuildFiles(files: seq<(Path, BuildFile)>, buildKeys: set<string>, sourceExists: string -> bool)
    returns (r: Result<Validated, PyException>, deleted: seq<Path>)
    ensures r == Validate(files, buildKeys, sourceExists)
    ensures deleted == Deleted(files, buildKeys, sourceExists)
  {
    var build: Build := map[];
    var unlinked: seq<Path> := [];
    var i := 0;
    while i < |files|
      invariant 0 <= i <= |files|
      invariant Validate(files[..i], buildKeys, sourceExists) == Success(Validated(build, unlinked))
    {
      assert files[..i + 1][..i] == files[..i];
      var keep := Keep(files[i].1, buildKeys, sourceExists);
      if keep.Failure? {
        ValidateFailureStays(files, i + 1, buildKeys, sourceExists);
        DeletedStopsAtRaise(files, i, buildKeys, sourceExists);
        return Failure(keep.error), unlinked;
      }
      if keep.value {
        var a := files[i].1.artifact;
        build := build[a.contractName := a];
      } else {
        unlinked := unlinked + [files[i].0];
      }
      i := i + 1;
    }
    assert files[..|files|] == files;
    r := Success(Validated(build, unlinked));
    deleted := unlinked;
  }

  /** Once a file raises, so does the whole validation. */
  lemma {:induction false} ValidateFailureStays(files: seq<(Path, BuildFile)>, i: int, buildKeys: set<string>, sourceExists: string -> bool)
    requires 0 <= i <= |files|
    requires Validate(files[..i], buildKeys, sourceExists).Failure?
    ensures Validate(files, buildKeys, sourceExists) == Validate(files[..i], buildKeys, sourceExists)
    decreases |files| - i
  {
    if i < |files| {
      assert files[..i + 1][..i] == files[..i];
      ValidateFailureStays(files, i + 1, buildKeys, sourceExists);
    } else {
      assert files[..i] == files;
    }
  }

  /**
   * The build files the loop has deleted when it ends, whether it completes
   * or a file raises: a file raising stops the loop, and the files rejected
   * before it stay deleted.
   */
  function Deleted(files: seq<(Path, BuildFile)>, buildKeys: set<string>, sourceExists: string -> bool): (d: seq<Path>)
    ensures Validate(files, buildKeys, sourceExists).Success? ==> d == Validate(files, buildKeys, sourceExists).value.unlinked
  {
    if files == [] then []
    else
      var n := |files| - 1;
      var prev := Validate(files[..n], buildKeys, sourceExists);
      if prev.Failure? then Deleted(files[..n], buildKeys, sourceExists)
      else if Keep(files[n].1, buildKeys, sourceExists) == Success(false) then prev.value.unlinked + [files[n].0]
      else prev.value.unlinked
  }

  /** When the file at `j` is the first to raise, the deleted files are the ones rejected before it. */
  lemma {:induction false} DeletedStopsAtRaise(files: seq<(Path, BuildFile)>, j: int, buildKeys: set<string>, sourceExists: string -> bool)
    requires 0 <= j < |files|
    requires Validate(files[..j], buildKeys, sourceExists).Success?
    requires Keep(files[j].1, buildKeys, sourceExists).Failure?
    ensures Validate(files, buildKeys, sourceExists).Failure?
    ensures Deleted(files, buildKeys, sourceExists) == Validate(files[..j], buildKeys, sourceExists).value.unlinked
  {
    var n := |files| - 1;
    if n == j {
      assert files[..n] == files[..j];
    } else {
      assert files[..n][..j] == files[..j];
      assert files[..n][j] == files[j];
      DeletedStopsAtRaise(files[..n], j, buildKeys, sourceExists);
    }
  }

  /** Every deleted file is one the loop rejected without raising. */
  lemma {:induction false} DeletedAreRejected(files: seq<(Path, BuildFile)>, buildKeys: set<string>, sourceExists: string -> bool)
    ensures forall p | p in Deleted(files, buildKeys, sourceExists) :: exists i | 0 <= i < |files| ::
      Keep(files[i].1, buildKeys, sourceExists) == Success(false) && files[i].0 == p
  {
    if files != [] {
      var n := |files| - 1;
      var front := files[..n];
      var d := Deleted(files, buildKeys, sourceExists);
      DeletedAreRejected(front, buildKeys, sourceExists);
      forall p | p in d
        ensures exists i | 0 <= i < |files| :: Keep(files[i].1, buildKeys, sourceExists) == Success(false) && files[i].0 == p
      {
        if p in Deleted(front, buildKeys, sourceExists) {
          var i :| 0 <= i < |front| && Keep(front[i].1, buildKeys, sourceExists) == Success(false) && front[i].0 == p;
          assert files[i] == front[i];
        } else {
          assert d == Deleted(front, buildKeys, sourceExists) + [files[n].0];
          assert Keep(files[n].1, buildKeys, sourceExists) == Success(false) && files[n].0 == p;
        }
      }
    }
  }

  // ------------------------------------------------------------ default name

  predicate IsUpper(c: char) { 'A' <= c <= 'Z' }
  predicate IsLower(c: char) { 'a' <= c <= 'z' }

  /** `str.isalpha` on one character, for ASCII text. */
  predicate IsAlpha(c: char) { IsUpper(c) || IsLower(c) }

  function ToUpper(c: char): char {
    if IsLower(c) then (c as int - 32) as char else c
  }

  function ToLower(c: char): char {
    if IsUpper(c) then (c as int + 32) as char else c
  }

  /** `str.lower`. */
  function Lower(s: string): (r: string)
    ensures |r| == |s|
  {
    if s == [] then [] else [ToLower(s[0])] + Lower(s[1..])
  }

  /** `str.lower` lowers each character in place. */
  lemma {:induction false} LowerChars(s: string)
    ensures forall i | 0 <= i < |s| :: Lower(s)[i] == ToLower(s[i])
  {
    if s != [] {
      LowerChars(s[1..]);
      assert forall i | 1 <= i < |s| :: s[1..][i - 1] == s[i];
    }
  }

  lemma {:induction false} LowerAppend(a: string, b: string)
    ensures Lower(a + b) == Lower(a) + Lower(b)
  {
    if a == [] {
      assert a + b == b;
    } else {
      assert (a + b)[1..] == a[1..] + b;
      LowerAppend(a[1..], b);
    }
  }

  /** Text without upper-case letters is its own lower-case form. */
  lemma {:induction false} LowerOfLower(s: string)
    requires forall i | 0 <= i < |s| :: !IsUpper(s[i])
    ensures Lower(s) == s
  {
    if s != [] {
      LowerOfLower(s[1..]);
    }
  }

  /**
   * `str.title` continuing after a character that was (`afterCased`) or was
   * not a letter: a letter after a letter is lowered, any other letter raised.
   */
  function TitleFrom(s: string, afterCased: bool): (r: string)
    ensures |r| == |s|
  {
    if s == [] then []
    else
      var c := s[0];
      [if !IsAlpha(c) then c else if afterCased then ToLower(c) else ToUpper(c)] + TitleFrom(s[1..], IsAlpha(c))
  }

  /** `str.title` keeps each character's lowered form and whether it is a letter. */
  lemma {:induction false} TitleChars(s: string, afterCased: bool)
    ensures var r := TitleFrom(s, afterCased);
      forall i | 0 <= i < |s| :: ToLower(r[i]) == ToLower(s[i]) && (IsAlpha(r[i]) <==> IsAlpha(s[i]))
  {
    if s != [] {
      TitleChars(s[1..], IsAlpha(s[0]));
      assert forall i | 1 <= i < |s| :: s[1..][i - 1] == s[i];
    }
  }

  /** Whether `str.title` ends `s` inside a word. */
  function EndsCased(s: string, afterCased: bool): bool {
    if s == [] then afterCased else IsAlpha(s[|s| - 1])
  }

  lemma {:induction false} TitleAppend(a: string, b: string, afterCased: bool)
    ensures TitleFrom(a + b, afterCased) == TitleFrom(a, afterCased) + TitleFrom(b, EndsCased(a, afterCased))
  {
    if a == [] {
      assert a + b == b;
    } else {
      assert (a + b)[1..] == a[1..] + b;
      TitleAppend(a[1..], b, IsAlpha(a[0]));
      if a[1..] == [] {
        assert EndsCased(a, afterCased) == IsAlpha(a[0]);
      } else {
        assert a[1..][|a[1..]| - 1] == a[|a| - 1];
      }
    }
  }

  /** Inside a word, title-casing leaves lower-case letters alone. */
  lemma {:induction false} TitleOfLowerLetters(s: string)
    requires forall i | 0 <= i < |s| :: IsLower(s[i])
    ensures TitleFrom(s, true) == s
  {
    if s != [] {
      TitleOfLowerLetters(s[1..]);
    }
  }

  /** A space and a lower-case word are title-cased by raising the word's first letter. */
  lemma TitleOfSpacedWord(afterCased: bool, c: char, rest: string)
    requires IsLower(c) && forall i | 0 <= i < |rest| :: IsLower(rest[i])
    ensures TitleFrom([' ', c] + rest, afterCased) == [' ', ToUpper(c)] + rest
  {
    TitleOfLowerLetters(rest);
    assert ([' ', c] + rest)[1..] == [c] + rest;
    assert ([c] + rest)[1..] == rest;
  }

  /** Title-casing " project" gives " Project", whatever came before. */
  lemma TitleOfProjectWord(afterCased: bool)
    ensures TitleFrom(" project", afterCased) == " Project"
  {
    var rest := "roject";
    assert forall i | 0 <= i < |rest| :: IsLower(rest[i]);
    assert ToUpper('p') == 'P';
    assert " project" == [' ', 'p'] + rest;
    TitleOfSpacedWord(afterCased, 'p', rest);
    assert " Project" == [' ', 'P'] + rest;
  }

  /** `"".join(i for i in s if i.isalpha())`. */
  function Letters(s: string): (r: string)
    ensures forall i | 0 <= i < |r| :: IsAlpha(r[i])
  {
    if s == [] then []
    else if IsAlpha(s[|s| - 1]) then Letters(s[..|s| - 1]) + [s[|s| - 1]]
    else Letters(s[..|s| - 1])
  }

  lemma {:induction false} LettersAppend(a: string, b: string)
    ensures Letters(a + b) == Letters(a) + Letters(b)
    decreases |b|
  {
    if b == [] {
      assert a + b == a;
    } else {
      assert (a + b)[..|a + b| - 1] == a + b[..|b| - 1];
      LettersAppend(a, b[..|b| - 1]);
    }
  }

  /**
   * The name `load` derives from a folder name: " project" is appended
   * unless the lowered name already ends in "project", then the title-cased
   * text keeps only its letters.
   */
  function DefaultName(folder: string): (name: string)
    ensures forall i | 0 <= i < |name| :: IsAlpha(name[i])
  {
    var n := if EndsWith(Lower(folder), "project") then folder else folder + " project";
    Letters(TitleFrom(n, false))
  }

  /** Keeping the letters of " Project" drops the space. */
  lemma LettersOfProjectWord()
    ensures Letters(" Project") == "Project"
  {
    assert " Project" == " " + "Project";
    assert " "[..0] == "";
    LettersKeepLetterTail(" ", "Project");
  }

  /** A folder whose lowered name does not end in "project" gets a name ending in "Project". */
  lemma DefaultNameAddsProject(folder: string)
    requires !EndsWith(Lower(folder), "project")
    ensures DefaultName(folder) == Letters(TitleFrom(folder, false)) + "Project"
    ensures EndsWith(DefaultName(folder), "Project")
  {
    TitleAppend(folder, " project", false);
    TitleOfProjectWord(EndsCased(folder, false));
    LettersAppend(TitleFrom(folder, false), " Project");
    LettersOfProjectWord();
  }

  /** Keeping the letters of a text that ends in letters keeps that ending. */
  lemma LettersKeepLetterTail(s: string, tail: string)
    requires forall i | 0 <= i < |tail| :: IsAlpha(tail[i])
    ensures Letters(s + tail) == Letters(s) + tail
  {
    LettersAppend(s, tail);
    LettersOfLetters(tail);
  }

  lemma {:induction false} LettersOfLetters(t: string)
    requires forall i | 0 <= i < |t| :: IsAlpha(t[i])
    ensures Letters(t) == t
  {
    if t != [] {
      LettersOfLetters(t[..|t| - 1]);
    }
  }

  /** The text title-cased before letters are kept ends in "project" once lowered. */
  lemma TitledEndsInProject(folder: string)
    ensures var n := if EndsWith(Lower(folder), "project") then folder else folder + " project";
      EndsWith(Lower(n), "project")
  {
    if !EndsWith(Lower(folder), "project") {
      LowerAppend(folder, " project");
      LowerOfLower(" project");
      var l := Lower(folder) + " project";
      assert |l| - 7 == |Lower(folder)| + 1;
      assert l[|l| - 7..] == " project"[1..] == "project";
    }
  }

  lemma AlphaLower(c: char)
    ensures IsAlpha(ToLower(c)) <==> IsAlpha(c)
  {
  }

  /** Title-casing changes only the case of letters, so lowering undoes it. */
  lemma {:induction false} LowerOfTitle(s: string, afterCased: bool)
    ensures Lower(TitleFrom(s, afterCased)) == Lower(s)
  {
    if s != [] {
      LowerOfTitle(s[1..], IsAlpha(s[0]));
    }
  }

  /** A text whose lower-case form is all letters is all letters. */
  lemma LettersIfLoweredLetters(s: string)
    requires forall i | 0 <= i < |s| :: IsAlpha(Lower(s)[i])
    ensures forall i | 0 <= i < |s| :: IsAlpha(s[i])
  {
    LowerChars(s);
    forall i | 0 <= i < |s| ensures IsAlpha(s[i]) {
      AlphaLower(s[i]);
    }
  }

  /** A text that ends in "project" once lowered splits into a head and seven letters lowering to "project". */
  lemma ProjectEnding(n: string)
    requires EndsWith(Lower(n), "project")
    ensures var e := n[|n| - 7..];
      Lower(e) == "project" && forall i | 0 <= i < |e| :: IsAlpha(e[i])
  {
    var k := |n| - 7;
    var h, e := n[..k], n[k..];
    assert n == h + e;
    LowerAppend(h, e);
    assert Lower(e) == Lower(n)[k..];
    assert forall i | 0 <= i < 7 :: IsAlpha("project"[i]);
    LettersIfLoweredLetters(e);
  }

  /** Whatever the folder, the derived name ends in "project" once lowered. */
  lemma DefaultNameEndsInProject(folder: string)
    ensures EndsWith(Lower(DefaultName(folder)), "project")
  {
    var n := if EndsWith(Lower(folder), "project") then folder else folder + " project";
    TitledEndsInProject(folder);
    ProjectEnding(n);
    var k := |n| - 7;
    var h, e := n[..k], n[k..];
    assert n == h + e;
    var c := EndsCased(h, false);
    var titled := TitleFrom(e, c);
    TitleAppend(h, e, false);
    TitleChars(e, c);
    LettersKeepLetterTail(TitleFrom(h, false), titled);
    LowerAppend(Letters(TitleFrom(h, false)), titled);
    LowerOfTitle(e, c);
    var l := Lower(Letters(TitleFrom(h, false))) + "project";
    assert l[|l| - 7..] == "project";
  }

  // ---------------------------------------------------- finding a project

  /** The path itself or its nearest ancestor that satisfies `has`. */
  function Nearest(has: Path -> bool, p: Path): (r: Option<Path>)
    ensures r.Some? ==> IsPrefix(r.value, p) && has(r.value)
    decreases |p|
  {
    if has(p) then Some(p)
    else if p == [] then None
    else Nearest(has, p[..|p| - 1])
  }

  /** No folder between the path and the one found satisfies `has`, and None means that none does. */
  lemma {:induction false} NearestIsNearest(has: Path -> bool, p: Path)
    ensures var r := Nearest(has, p);
      r.Some? ==> forall k | |r.value| < k <= |p| :: !has(p[..k])
    ensures Nearest(has, p).None? <==> forall k | 0 <= k <= |p| :: !has(p[..k])
    decreases |p|
  {
    assert p[..|p|] == p;
    if !has(p) && p != [] {
      var parent := p[..|p| - 1];
      NearestIsNearest(has, parent);
      assert forall k | 0 <= k <= |parent| :: parent[..k] == p[..k];
    }
  }

  /** Whether the folder (or file) `p` has a configuration file. */
  function HasConfig(fs: FileSystem): Path -> bool {
    p => ProjectConfigPath(fs, p).Some?
  }

  /** The path itself or its nearest ancestor that holds a configuration file. */
  function NearestProject(fs: FileSystem, p: Path): (r: Option<Path>)
    ensures r.Some? ==> IsPrefix(r.value, p) && ProjectConfigPath(fs, r.value).Some?
  {
    Nearest(HasConfig(fs), p)
  }

  /**
   * `check_for_project(path)`: walk from the path up through its parents and
   * return the first folder that holds a configuration file.
   */
  method CheckForProject(fs: FileSystem, p: Path) returns (r: Option<Path>)
    ensures r == NearestProject(fs, p)
  {
    var has := HasConfig(fs);
    var k := |p|;
    assert p[..k] == p;
    while k >= 0
      invariant -1 <= k <= |p|
      invariant NearestProject(fs, p) == if k < 0 then None else Nearest(has, p[..k])
      decreases k
    {
      if has(p[..k]) {
        return Some(p[..k]);
      }
      if k > 0 {
        assert p[..k][..k - 1] == p[..k - 1];
      }
      k := k - 1;
    }
    return None;
  }

  /** The checks before a project is created inside `projectPath`. */
  function NewChecks(fs: FileSystem, brownieFolder: Path, projectPath: Path, ignoreSubfolder: bool): (r: Result<Path, PyException>)
    ensures r.Success? ==> r.value == projectPath
    ensures r.Failure? ==> r.error == SystemError
  {
    if IsPrefix(brownieFolder, projectPath) then Failure(SystemError)
    else if !ignoreSubfolder && InsideOtherProject(fs, projectPath) then Failure(SystemError)
    else Success(projectPath)
  }

  /**
   * A project may be created exactly outside the installation folder, and,
   * unless subfolders are allowed, where no proper ancestor is a project
   * (a folder that is itself a project may be created again).
   */
  lemma NewChecksExactly(fs: FileSystem, brownieFolder: Path, projectPath: Path, ignoreSubfolder: bool)
    ensures NewChecks(fs, brownieFolder, projectPath, ignoreSubfolder).Success? <==>
      !IsPrefix(brownieFolder, projectPath) &&
      (ignoreSubfolder || ProjectConfigPath(fs, projectPath).Some? ||
       forall k | 0 <= k < |projectPath| :: ProjectConfigPath(fs, projectPath[..k]).None?)
  {
    var has := HasConfig(fs);
    var r := Nearest(has, projectPath);
    NearestIsNearest(has, projectPath);
    assert projectPath[..|projectPath|] == projectPath;
    assert InsideOtherProject(fs, projectPath) <==> r.Some? && r.value != projectPath;
    if r.Some? && r.value != projectPath {
      assert |r.value| < |projectPath| && has(projectPath[..|r.value|]);
    }
    if r.Some? && r.value == projectPath {
      assert has(projectPath);
    }
  }

  /** `check and check != project_path`. */
  predicate InsideOtherProject(fs: FileSystem, projectPath: Path) {
    var check := NearestProject(fs, projectPath);
    check.Some? && check.value != projectPath
  }

  /** `_new_checks` as written: the installation folder test is a substring test on the two strings. */
  function NewChecksAsWritten(fs: FileSystem, brownieFolder: Path, projectPath: Path, ignoreSubfolder: bool): Result<Path, PyException> {
    if IsSubstring(PathString(brownieFolder), PathString(projectPath)) then Failure(SystemError)
    else if !ignoreSubfolder && InsideOtherProject(fs, projectPath) then Failure(SystemError)
    else Success(projectPath)
  }

  /** Every path the intended test refuses, the substring test refuses too. */
  lemma AsWrittenRefusesMore(fs: FileSystem, brownieFolder: Path, projectPath: Path, ignoreSubfolder: bool)
    requires NewChecks(fs, brownieFolder, projectPath, ignoreSubfolder).Failure?
    ensures NewChecksAsWritten(fs, brownieFolder, projectPath, ignoreSubfolder).Failure?
  {
    if IsPrefix(brownieFolder, projectPath) {
      var s := PathString(projectPath);
      if brownieFolder == [] {
        assert OccursAt("/", s, 0);
      } else if brownieFolder == projectPath {
        assert OccursAt(s, s, 0);
      } else {
        var rest := projectPath[|brownieFolder|..];
        assert projectPath == brownieFolder + rest;
        PathStringOfJoin(brownieFolder, rest);
        assert OccursAt(PathString(brownieFolder), s, 0);
      }
    }
  }

  /** A project beside the installation folder, in a folder whose name extends it, is refused as written. */
  lemma NewChecksCounterexample(fs: FileSystem)
    ensures NewChecksAsWritten(fs, ["opt", "brownie"], ["opt", "brownie-mix", "token"], true) == Failure(SystemError)
    ensures NewChecks(fs, ["opt", "brownie"], ["opt", "brownie-mix", "token"], true).Success?
  {
    var bf: Path := ["opt", "brownie"];
    var pp: Path := ["opt", "brownie-mix", "token"];
    assert PathString(bf) == "/opt/brownie" by {
      assert bf[..1] == ["opt"];
      assert JoinFrom(["opt"]) == "/opt";
      assert JoinFrom(bf) == "/opt" + "/" + "brownie";
    }
    assert PathString(pp) == "/opt/brownie-mix/token" by {
      assert pp[..2] == ["opt", "brownie-mix"] && pp[..2][..1] == ["opt"];
      assert JoinFrom(["opt"]) == "/opt";
      assert JoinFrom(["opt", "brownie-mix"]) == "/opt" + "/" + "brownie-mix";
      assert JoinFrom(pp) == "/opt/brownie-mix" + "/" + "token";
    }
    assert OccursAt("/opt/brownie", "/opt/brownie-mix/token", 0);
    assert pp[..2] != bf by {
      assert pp[1] != bf[1];
    }
  }

  // -------------------------------------------------------------- sys.path

  /** An entry of `sys.path`: a str, or a `Path` object, which never equals a str. */
  datatype PathEntry = Str(s: string) | PathObject(p: Path)

  /** `list.index(x)`: the position of the first entry equal to `x`. */
  function IndexOf<T(==)>(xs: seq<T>, x: T): (i: nat)
    requires x in xs
    ensures i < |xs| && xs[i] == x && x !in xs[..i]
  {
    if xs[0] == x then 0
    else
      var j := IndexOf(xs[1..], x);
      assert xs[..j + 1] == [xs[0]] + xs[1..][..j];
      j + 1
  }

  /** `list.remove(x)`: drop the first entry equal to `x`; ValueError when there is none. */
  function ListRemove<T(==)>(xs: seq<T>, x: T): (r: Result<seq<T>, PyException>)
    ensures r.Failure? <==> x !in xs
    ensures r.Failure? ==> r.error == ValueError
    ensures r.Success? ==> |r.value| == |xs| - 1 && multiset(r.value) + multiset{x} == multiset(xs)
    ensures r.Success? ==> exists i | 0 <= i < |xs| :: xs[i] == x && x !in xs[..i] && r.value == xs[..i] + xs[i + 1..]
  {
    if x !in xs then Failure(ValueError)
    else
      var i := IndexOf(xs, x);
      assert xs == xs[..i] + [x] + xs[i + 1..];
      Success(xs[..i] + xs[i + 1..])
  }

  /** The entries after `_add_to_sys_path(path)`. */
  function WithProjectPath(entries: seq<PathEntry>, path: Path): (r: seq<PathEntry>)
    ensures Str(PathString(path)) in r
    ensures Str(PathString(path)) !in entries ==> r == [Str(PathString(path))] + entries
    ensures Str(PathString(path)) in entries ==> r == entries
  {
    var s := Str(PathString(path));
    if s in entries then entries else [s] + entries
  }

  /** Adding the same project path twice changes nothing more. */
  lemma AddIdempotent(entries: seq<PathEntry>, path: Path)
    ensures WithProjectPath(WithProjectPath(entries, path), path) == WithProjectPath(entries, path)
  {
  }

  /** `close` as written: `sys.path.remove(self._project_path)` looks for the `Path` object. */
  function CloseSysPathAsWritten(entries: seq<PathEntry>, path: Path): seq<PathEntry> {
    var r := ListRemove(entries, PathObject(path));
    if r.Success? then r.value else entries
  }

  /** `close` as intended: remove the string `_add_to_sys_path` inserted. */
  function CloseSysPath(entries: seq<PathEntry>, path: Path): seq<PathEntry> {
    var r := ListRemove(entries, Str(PathString(path)));
    if r.Success? then r.value else entries
  }

  /** Every entry is a str: nothing `_add_to_sys_path` inserts, or the interpreter starts with, is a Path. */
  predicate AllStrings(entries: seq<PathEntry>) {
    forall i | 0 <= i < |entries| :: entries[i].Str?
  }

  /** As written, closing a project leaves its path in `sys.path`. */
  lemma CloseAsWrittenKeepsPath(entries: seq<PathEntry>, path: Path)
    requires AllStrings(entries)
    ensures CloseSysPathAsWritten(WithProjectPath(entries, path), path) == WithProjectPath(entries, path)
    ensures Str(PathString(path)) in CloseSysPathAsWritten(WithProjectPath(entries, path), path)
  {
    assert PathObject(path) !in WithProjectPath(entries, path);
  }

  /** As intended, adding a new project path and closing the project restores `sys.path`. */
  lemma AddThenCloseRestores(entries: seq<PathEntry>, path: Path)
    requires Str(PathString(path)) !in entries
    ensures CloseSysPath(WithProjectPath(entries, path), path) == entries
  {
    var s := Str(PathString(path));
    var xs := [s] + entries;
    assert xs[0] == s;
  }

  /** `sys.path`. */
  class SysPath {
    var entries: seq<PathEntry>

    constructor (initial: seq<PathEntry>)
      ensures entries == initial
    {
      entries := initial;
    }

    /** `_add_to_sys_path(path)`: insert the path's string at the front unless it is already there. */
    method Add(path: Path)
      modifies this
      ensures entries == WithProjectPath(old(entries), path)
    {
      var s := Str(PathString(path));
      if s in entries {
        return;
      }
      entries := [s] + entries;
    }

    /** The `sys.path` step of `close`, removing the string as intended; a missing entry is ignored. */
    method Remove(path: Path)
      modifies this
      ensures entries == CloseSysPath(old(entries), path)
    {
      var r := ListRemove(entries, Str(PathString(path)));
      if r.Success? {
        entries := r.value;
      }
    }
  }
}
