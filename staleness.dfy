/**
 * The data a project keeps between builds and the test that decides whether
 * a contract must be compiled again (`Project._compare_build_json`,
 * brownie/project/main.py).
 *
 * `Sources`, `Build` and `get_hash` live in modules that are not part of this
 * model; they appear here as the maps and the hash function they expose.
 */
module Staleness {
  import opened Wrappers
  import opened ConfigValues

  /** The fields of a build artifact that the bookkeeping reads. */
  datatype Artifact = Artifact(
    contractName: string,
    sha1: string,
    compiler: seq<(string, Scalar)>,  // the `compiler` block, in its stored order
    bytecode: string,
    sourcePath: string,
    dependencies: set<string>)

  /** The build: artifacts by contract name. */
  type Build = map<string, Artifact>

  /**
   * The project's sources: file texts by project-relative path, the file that
   * defines each contract, and the contract names in the order
   * `get_contract_list` lists them.
   */
  datatype Sources = Sources(text: map<string, string>, contractPath: map<string, string>, contracts: seq<string>)

  /** The compiler settings in force: `version`, `optimize`, `runs`, `evm_version`, `minify_source`, ... */
  type CompilerConfig = map<string, Scalar>

  /** `get_hash(source, contract_name, minify)`: deterministic, otherwise unknown. */
  type Hasher = (string, string, Scalar) -> string

  /** `Sources.get(key)`: the text of the file defining contract `key`, or of the file at path `key`. */
  function GetSource(src: Sources, key: string): Option<string> {
    if key in src.contractPath then
      if src.contractPath[key] in src.text then Some(src.text[src.contractPath[key]]) else None
    else if key in src.text then Some(src.text[key])
    else None
  }

  /** A stored setting `v` under `k` disagrees with a truthy configured value. */
  predicate Differs(k: string, v: Scalar, config: CompilerConfig) {
    k in config && Truthy(config[k]) && !PyEq(v, config[k])
  }

  /**
   * `next((True for k, v in block if config[k] and v != config[k]), False)`:
   * the stored settings are visited in order; a key the configuration lacks
   * raises KeyError unless an earlier setting already differed.
   */
  function SettingsDiffer(block: seq<(string, Scalar)>, config: CompilerConfig): (r: Result<bool, PyException>)
    ensures r.Success? && r.value ==> exists i | 0 <= i < |block| :: Differs(block[i].0, block[i].1, config)
    ensures r.Failure? ==> r.error == KeyError && exists i | 0 <= i < |block| :: block[i].0 !in config
    ensures (forall i | 0 <= i < |block| :: block[i].0 in config) ==>
      r.Success? && (r.value <==> exists i | 0 <= i < |block| :: Differs(block[i].0, block[i].1, config))
  {
    if block == [] then Success(false)
    else
      var k, v := block[0].0, block[0].1;
      if k !in config then Failure(KeyError)
      else if Truthy(config[k]) && !PyEq(v, config[k]) then Success(true)
      else
        var rest := SettingsDiffer(block[1..], config);
        assert forall i | 0 <= i < |block[1..]| :: block[1..][i] == block[i + 1];
        assert (exists i | 0 <= i < |block| :: Differs(block[i].0, block[i].1, config)) ==>
               exists i | 0 <= i < |block[1..]| :: Differs(block[1..][i].0, block[1..][i].1, config) by {
          if exists i | 0 <= i < |block| :: Differs(block[i].0, block[i].1, config) {
            var i :| 0 <= i < |block| && Differs(block[i].0, block[i].1, config);
            assert i > 0;
            assert Differs(block[1..][i - 1].0, block[1..][i - 1].1, config);
          }
        }
        rest
  }

  /**
   * `_compare_build_json(name)`: a contract is stale when its source or its
   * artifact is missing, when the stored `sha1` is not the hash of the
   * current source, or when a stored compiler setting disagrees with a truthy
   * configured one. A configuration without `minify_source`, or without a key
   * the artifact stores, raises KeyError.
   */
  function IsStale(src: Sources, build: Build, config: CompilerConfig, hash: Hasher, name: string): (r: Result<bool, PyException>)
    ensures GetSource(src, name).None? || name !in build ==> r == Success(true)
    ensures r.Failure? ==> r.error == KeyError
  {
    var source := GetSource(src, name);
    if source.None? || name !in build then Success(true)
    else if "minify_source" !in config then Failure(KeyError)
    else if build[name].sha1 != hash(source.value, name, config["minify_source"]) then Success(true)
    else SettingsDiffer(build[name].compiler, config)
  }

  /** Every setting the artifact of `name` stores is configured, and so is `minify_source`. */
  predicate Configured(build: Build, config: CompilerConfig, name: string) {
    "minify_source" in config &&
    (name in build ==> forall i | 0 <= i < |build[name].compiler| :: build[name].compiler[i].0 in config)
  }

  /** With every setting configured, staleness is exactly the disjunction of the three causes. */
  lemma StaleExactly(src: Sources, build: Build, config: CompilerConfig, hash: Hasher, name: string)
    requires Configured(build, config, name)
    ensures IsStale(src, build, config, hash, name) == Success(
      || GetSource(src, name).None?
      || name !in build
      || build[name].sha1 != hash(GetSource(src, name).value, name, config["minify_source"])
      || exists i | 0 <= i < |build[name].compiler| ::
           Differs(build[name].compiler[i].0, build[name].compiler[i].1, config))
  {
  }

  /**
   * An artifact whose hash matches the current source is never made stale by
   * falsy configured settings (`runs: 0`, `optimize: false`, `version: None`).
   */
  lemma FalsySettingsNeverStale(src: Sources, build: Build, config: CompilerConfig, hash: Hasher, name: string)
    requires Configured(build, config, name) && name in build && GetSource(src, name).Some?
    requires build[name].sha1 == hash(GetSource(src, name).value, name, config["minify_source"])
    requires forall k | k in config :: !Truthy(config[k])
    ensures IsStale(src, build, config, hash, name) == Success(false)
  {
    StaleExactly(src, build, config, hash, name);
  }

  /** A truthy configured setting that disagrees with the stored one makes the contract stale. */
  lemma ChangedSettingStale(src: Sources, build: Build, config: CompilerConfig, hash: Hasher, name: string, i: int)
    requires Configured(build, config, name) && name in build
    requires 0 <= i < |build[name].compiler|
    requires Truthy(config[build[name].compiler[i].0]) && !PyEq(build[name].compiler[i].1, config[build[name].compiler[i].0])
    ensures IsStale(src, build, config, hash, name) == Success(true)
  {
    StaleExactly(src, build, config, hash, name);
    assert Differs(build[name].compiler[i].0, build[name].compiler[i].1, config);
  }

  /**
   * An artifact just compiled from the current source under the current
   * settings (its hash is the source's, each stored setting equals the
   * configured one) is not stale.
   */
  lemma FreshArtifactNotStale(src: Sources, build: Build, config: CompilerConfig, hash: Hasher, name: string)
    requires "minify_source" in config && name in build && GetSource(src, name).Some?
    requires build[name].sha1 == hash(GetSource(src, name).value, name, config["minify_source"])
    requires forall i | 0 <= i < |build[name].compiler| ::
      build[name].compiler[i].0 in config && config[build[name].compiler[i].0] == build[name].compiler[i].1
    ensures IsStale(src, build, config, hash, name) == Success(false)
  {
    StaleExactly(src, build, config, hash, name);
    forall i | 0 <= i < |build[name].compiler|
      ensures !Differs(build[name].compiler[i].0, build[name].compiler[i].1, config)
    {
      var v := build[name].compiler[i].1;
      assert PyEq(v, v);
    }
  }
}
