/**
 * Locating a project's configuration file and cleaning JSON configuration
 * text (brownie/_config.py, `_get_project_config_path` and `_load_config`).
 */
module ConfigFiles {
  import opened Wrappers
  import opened PathModel

  /** The suffixes tried for a configuration file, in order of preference. */
  const CONFIG_SUFFIXES: seq<string> := [".yml", ".yaml", ".json"]

  /** The path whose suffix is replaced: `brownie-config` inside a directory, else the path itself. */
  function ConfigBase(fs: FileSystem, p: Path): (base: Path)
    ensures base != []
    ensures IsDir(fs, p) ==> base == p + ["brownie-config"]
    ensures !IsDir(fs, p) ==> base == p
  {
    if IsDir(fs, p) then p + ["brownie-config"] else p
  }

  /** The first of `base` with one of `suffixes` that exists. */
  function FirstExisting(fs: FileSystem, base: Path, suffixes: seq<string>): (r: Option<Path>)
    requires base != []
    ensures r.None? <==> forall i :: 0 <= i < |suffixes| ==> !Exists(fs, WithSuffix(base, suffixes[i]))
    ensures r.Some? ==>
      exists i :: 0 <= i < |suffixes| && r.value == WithSuffix(base, suffixes[i]) && Exists(fs, r.value)
        && forall j :: 0 <= j < i ==> !Exists(fs, WithSuffix(base, suffixes[j]))
  {
    if suffixes == [] then None
    else if Exists(fs, WithSuffix(base, suffixes[0])) then Some(WithSuffix(base, suffixes[0]))
    else
      var r := FirstExisting(fs, base, suffixes[1..]);
      if r.Some? then
        var i :| 0 <= i < |suffixes[1..]| && r.value == WithSuffix(base, suffixes[1..][i]) && Exists(fs, r.value)
          && forall j :: 0 <= j < i ==> !Exists(fs, WithSuffix(base, suffixes[1..][j]));
        assert r.value == WithSuffix(base, suffixes[i + 1]);
        r
      else r
  }

  /** `_get_project_config_path`: the configuration file of a project folder (or the file itself), if any. */
  function ProjectConfigPath(fs: FileSystem, p: Path): (r: Option<Path>)
    ensures r.Some? ==> Exists(fs, r.value)
  {
    FirstExisting(fs, ConfigBase(fs, p), CONFIG_SUFFIXES)
  }

  /** For a directory the candidates are brownie-config.yml, then .yaml, then .json. */
  lemma DirectoryConfigCandidates(fs: FileSystem, p: Path)
    requires IsDir(fs, p)
    ensures ProjectConfigPath(fs, p) ==
      if Exists(fs, p + ["brownie-config.yml"]) then Some(p + ["brownie-config.yml"])
      else if Exists(fs, p + ["brownie-config.yaml"]) then Some(p + ["brownie-config.yaml"])
      else if Exists(fs, p + ["brownie-config.json"]) then Some(p + ["brownie-config.json"])
      else None
  {
    var base := p + ["brownie-config"];
    var name := "brownie-config";
    assert forall j :: 0 <= j < |name| ==> name[j] != '.';
    assert Suffix(name) == "";
    assert base[..|base| - 1] == p;
    assert Name(base) == name && name[..|name| - 0] == name;
    assert name + ".yml" == "brownie-config.yml";
    assert name + ".yaml" == "brownie-config.yaml";
    assert name + ".json" == "brownie-config.json";
    assert WithSuffix(base, ".yml") == p + ["brownie-config.yml"];
    assert WithSuffix(base, ".yaml") == p + ["brownie-config.yaml"];
    assert WithSuffix(base, ".json") == p + ["brownie-config.json"];
    assert ConfigBase(fs, p) == base;
    assert CONFIG_SUFFIXES[0] == ".yml";
    assert CONFIG_SUFFIXES[1..] == [".yaml", ".json"];
    assert CONFIG_SUFFIXES[1..][1..] == [".json"];
    assert CONFIG_SUFFIXES[1..][1..][1..] == [];
    var yml, yaml, json := p + ["brownie-config.yml"], p + ["brownie-config.yaml"], p + ["brownie-config.json"];
    var f2 := FirstExisting(fs, base, CONFIG_SUFFIXES[1..][1..]);
    assert f2 == if Exists(fs, json) then Some(json) else None;
    var f1 := FirstExisting(fs, base, CONFIG_SUFFIXES[1..]);
    assert f1 == if Exists(fs, yaml) then Some(yaml) else f2;
  }

  /** Occurrences of `c` in `s`. */
  function Count(c: char, s: string): nat {
    if s == [] then 0 else (if s[0] == c then 1 else 0) + Count(c, s[1..])
  }

  lemma {:induction false} CountAppend(c: char, a: string, b: string)
    ensures Count(c, a + b) == Count(c, a) + Count(c, b)
  {
    if a == [] {
      assert a + b == b;
    } else {
      assert (a + b)[1..] == a[1..] + b;
      CountAppend(c, a[1..], b);
    }
  }

  lemma {:induction false} CountAbsent(c: char, s: string)
    requires forall j :: 0 <= j < |s| ==> s[j] != c
    ensures Count(c, s) == 0
  {
    if s != [] {
      CountAbsent(c, s[1..]);
    }
  }

  /** The length of `s` up to its first newline (all of it when there is none). */
  function LineLength(s: string): (n: nat)
    ensures n <= |s|
    ensures forall j :: 0 <= j < n ==> s[j] != '\n'
    ensures n < |s| ==> s[n] == '\n'
  {
    if s == [] || s[0] == '\n' then 0 else 1 + LineLength(s[1..])
  }

  /**
   * A comment starts at the front of `s`: "//" followed, up to the next
   * newline or the end, by text without a double quote.
   */
  predicate CommentAtFront(s: string) {
    |s| >= 2 && s[..2] == "//" && '"' !in s[2..2 + LineLength(s[2..])]
  }

  /**
   * `re.sub(r'\/\/[^"]*?(?=\n|$)', "", text)`: scanning from the left, each
   * comment is removed up to (not including) the newline that ends it; a "//"
   * whose line holds a double quote after it is kept.
   */
  function StripComments(s: string): (r: string)
    ensures |r| <= |s|
    ensures !IsSubstring("//", s) ==> r == s
    decreases |s|
  {
    if |s| < 2 then s
    else if CommentAtFront(s) then
      assert OccursAt("//", s, 0);
      StripComments(s[2 + LineLength(s[2..])..])
    else
      var rest := StripComments(s[1..]);
      assert IsSubstring("//", s[1..]) ==> IsSubstring("//", s) by {
        if IsSubstring("//", s[1..]) {
          var i :| 0 <= i <= |s[1..]| && OccursAt("//", s[1..], i);
          assert OccursAt("//", s, i + 1);
        }
      }
      assert !IsSubstring("//", s) ==> s == [s[0]] + s[1..];
      [s[0]] + rest
  }

  /** A comment removed from the front of `s` holds neither a newline nor a double quote. */
  lemma CommentIsPlain(s: string)
    requires CommentAtFront(s)
    ensures Count('\n', s[..2 + LineLength(s[2..])]) == 0
    ensures Count('"', s[..2 + LineLength(s[2..])]) == 0
  {
    var n := LineLength(s[2..]);
    var comment := s[..2 + n];
    forall j | 0 <= j < |comment| ensures comment[j] != '\n' && comment[j] != '"' {
      if j >= 2 {
        assert comment[j] == s[2..][j - 2] == s[2..2 + n][j - 2];
      }
    }
    CountAbsent('\n', comment);
    CountAbsent('"', comment);
  }

  /** Stripping never removes a newline or a double quote. */
  lemma {:induction false} StripKeepsNewlinesAndQuotes(s: string)
    ensures Count('\n', StripComments(s)) == Count('\n', s)
    ensures Count('"', StripComments(s)) == Count('"', s)
    decreases |s|
  {
    if |s| < 2 {
    } else if CommentAtFront(s) {
      var n := LineLength(s[2..]);
      var rest := s[2 + n..];
      StripKeepsNewlinesAndQuotes(rest);
      assert s == s[..2 + n] + rest;
      CountAppend('\n', s[..2 + n], rest);
      CountAppend('"', s[..2 + n], rest);
      CommentIsPlain(s);
    } else {
      var rest := s[1..];
      StripKeepsNewlinesAndQuotes(rest);
      assert StripComments(s) == [s[0]] + StripComments(rest);
      assert s == [s[0]] + rest;
      CountAppend('\n', [s[0]], StripComments(rest));
      CountAppend('"', [s[0]], StripComments(rest));
      CountAppend('\n', [s[0]], rest);
      CountAppend('"', [s[0]], rest);
    }
  }

  /** A comment is cut up to, and not including, its newline. */
  lemma StripCommentExample()
    ensures StripComments("1//c\n2") == "1\n2"
  {
    assert StripComments("2") == "2";
    assert "\n2"[..2][0] != "//"[0];
    assert StripComments("\n2") == "\n" + StripComments("2");
    assert "//c\n2"[2..] == "c\n2" && LineLength("c\n2") == 1;
    assert "//c\n2"[3..] == "\n2";
    assert StripComments("//c\n2") == "\n2";
    assert "1//c\n2"[..2][0] != "//"[0];
    assert StripComments("1//c\n2") == "1" + StripComments("//c\n2");
  }

  /** A "//" followed on its line by a double quote, as inside a JSON string, is kept. */
  lemma KeepQuotedSlashesExample()
    ensures StripComments("\"//\"") == "\"//\""
  {
    assert StripComments("/\"") == "/\"";
    assert "//\""[2..] == "\"" && LineLength("\"") == 1;
    assert StripComments("//\"") == "/" + StripComments("/\"");
    assert "\"//\""[..2][0] != "//"[0];
    assert StripComments("\"//\"") == "\"" + StripComments("//\"");
  }
}
