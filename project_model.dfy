/**
 * A loaded Brownie project (`Project` in brownie/project/main.py): its
 * sources, its build, its contract containers, the `_active` flag and the
 * module-level registry `_loaded_projects`; `load`, `close`, the module-level
 * `load` and `get_loaded_projects`.
 *
 * The compiler, `set_solc_version`, `get_hash`, the `Sources` index and the
 * files on disk are not part of this model: they are passed in as values.
 */
module ProjectModel {
  import opened Wrappers
  import opened PathModel
  import opened ConfigValues
  import opened ConfigFiles
  import opened Staleness
  import opened ChangeSet
  import opened LexOrder
  import opened ProjectHelpers

  /** The settings `_compile` passes to the compiler, in the order it reads them. */
  const COMPILE_KEYS: seq<string> := ["version", "optimize", "runs", "evm_version", "minify_source"]

  /** `compiler.compile_and_format(sources, version, optimize, runs, evm_version, minify)`: its artifacts, in order. */
  type Compiler = (map<string, string>, seq<Scalar>) -> Result<seq<Artifact>, PyException>

  /** `compiler.set_solc_version(version)`: the version it installs and selects. */
  type Resolver = Scalar -> Result<Scalar, PyException>

  /** What a project reads from disk when it is created. */
  datatype Disk = Disk(
    found: seq<(Path, string)>,         // `contracts/**/*.sol`: project-relative path and text
    buildFiles: seq<(Path, BuildFile)>, // `build/contracts/*.json`, parsed
    sourceExists: string -> bool,       // whether `project_path / sourcePath` exists
    compilerConfig: CompilerConfig)     // `_load_project_compiler_config(project_path, "solc")`

  /** The code outside this model that a project calls. */
  datatype Toolchain = Toolchain(
    index: map<string, string> -> Sources, // `Sources(contract_sources)`
    buildKeys: set<string>,                // `BUILD_KEYS`
    resolve: Resolver,
    hash: Hasher,
    compile: Compiler)

  /** The compiler settings `_compile` reads, or KeyError when one of them is not configured. */
  function CompileSettings(config: CompilerConfig): (r: Result<seq<Scalar>, PyException>)
    ensures r.Success? <==> forall i | 0 <= i < |COMPILE_KEYS| :: COMPILE_KEYS[i] in config
    ensures r.Success? ==> (|r.value| == |COMPILE_KEYS| &&
      forall i | 0 <= i < |COMPILE_KEYS| :: r.value[i] == config[COMPILE_KEYS[i]])
    ensures r.Failure? ==> r.error == KeyError
  {
    if forall i | 0 <= i < |COMPILE_KEYS| :: COMPILE_KEYS[i] in config then
      Success(seq(|COMPILE_KEYS|, i requires 0 <= i < |COMPILE_KEYS| => config[COMPILE_KEYS[i]]))
    else Failure(KeyError)
  }

  /**
   * The configuration the staleness test runs under: a truthy `version` is
   * replaced by the version `set_solc_version` resolves it to.
   */
  function DetectionConfig(config: CompilerConfig, resolve: Resolver): (r: Result<CompilerConfig, PyException>)
    ensures "version" !in config ==> r == Failure(KeyError)
    ensures r.Success? ==> (r.value.Keys == config.Keys &&
      forall k | k in config && k != "version" :: r.value[k] == config[k])
    ensures "version" in config && !Truthy(config["version"]) ==> r == Success(config)
  {
    if "version" !in config then Failure(KeyError)
    else
      var version := config["version"];
      if !Truthy(version) then Success(config)
      else
        var resolved := resolve(version);
        if resolved.Failure? then Failure(resolved.error)
        else Success(config["version" := resolved.value])
  }

  /** The contract names of a sequence of artifacts. */
  function Names(arts: seq<Artifact>): (r: set<string>)
    ensures forall i | 0 <= i < |arts| :: arts[i].contractName in r
    ensures forall k | k in r :: exists i | 0 <= i < |arts| :: arts[i].contractName == k
  {
    if arts == [] then {}
    else
      var n := |arts| - 1;
      var prev := Names(arts[..n]);
      assert forall i | 0 <= i < n :: arts[..n][i] == arts[i];
      prev + {arts[n].contractName}
  }

  /** The build after `Build._add` of each artifact in turn: keyed by contract name, the last one winning. */
  function Install(build: Build, arts: seq<Artifact>): (b: Build)
    ensures build.Keys <= b.Keys
    ensures forall i | 0 <= i < |arts| :: arts[i].contractName in b
  {
    if arts == [] then build
    else
      var n := |arts| - 1;
      assert forall i | 0 <= i < n :: arts[..n][i] == arts[i];
      Install(build, arts[..n])[arts[n].contractName := arts[n]]
  }

  /** After installing, the build holds its old names and the name of every artifact, and no other. */
  lemma {:induction false} InstallKeys(build: Build, arts: seq<Artifact>)
    ensures Install(build, arts).Keys == build.Keys + Names(arts)
  {
    if arts != [] {
      InstallKeys(build, arts[..|arts| - 1]);
    }
  }

  /** An entry no artifact names is left as it was. */
  lemma {:induction false} InstallKeepsOthers(build: Build, arts: seq<Artifact>, k: string)
    requires k in build && k !in Names(arts)
    ensures Install(build, arts)[k] == build[k]
  {
    if arts != [] {
      var n := |arts| - 1;
      assert Names(arts[..n]) <= Names(arts);
      InstallKeepsOthers(build, arts[..n], k);
    }
  }

  /** An artifact no later artifact overrides is found under its name. */
  lemma {:induction false} InstallLastWins(build: Build, arts: seq<Artifact>, i: int)
    requires 0 <= i < |arts|
    requires forall j | i < j < |arts| :: arts[j].contractName != arts[i].contractName
    ensures Install(build, arts)[arts[i].contractName] == arts[i]
  {
    var n := |arts| - 1;
    var front := arts[..n];
    var prev := Install(build, front);
    var name := arts[i].contractName;
    assert Install(build, arts) == prev[arts[n].contractName := arts[n]];
    if i < n {
      assert front[i] == arts[i];
      assert arts[n].contractName != name;
      forall j | i < j < |front| ensures front[j].contractName != front[i].contractName {
        assert front[j] == arts[j];
      }
      InstallLastWins(build, front, i);
      assert prev[name] == arts[i];
    }
  }

  /** Where `_compile` writes the artifact of a contract. */
  function ArtifactFile(root: Path, contractName: string): (p: Path)
    ensures IsPrefix(root, p) && |p| == |root| + 3
    ensures p[|root|..] == ["build", "contracts", contractName + ".json"]
  {
    root + ["build", "contracts", contractName + ".json"]
  }

  /** The files `_compile` writes, one per artifact, in order. */
  function ArtifactFiles(root: Path, arts: seq<Artifact>): (ps: seq<Path>)
    ensures |ps| == |arts| && forall i | 0 <= i < |arts| :: ps[i] == ArtifactFile(root, arts[i].contractName)
  {
    if arts == [] then [] else ArtifactFiles(root, arts[..|arts| - 1]) + [ArtifactFile(root, arts[|arts| - 1].contractName)]
  }

  /** The artifacts that get a contract container: those with non-empty bytecode. */
  function Deployable(build: Build): (c: map<string, Artifact>)
    ensures forall k :: k in c <==> k in build && build[k].bytecode != ""
    ensures forall k | k in c :: c[k] == build[k]
  {
    map k | k in build && build[k].bytecode != "" :: build[k]
  }

  /** `_loaded_projects`. */
  class Registry {
    var loaded: seq<Project>

    constructor ()
      ensures loaded == []
    {
      loaded := [];
    }

    /** No project is registered twice, and every registered project is active. */
    predicate Consistent()
      reads this, loaded
    {
      (forall i, j | 0 <= i < j < |loaded| :: loaded[i] != loaded[j]) &&
      forall i | 0 <= i < |loaded| :: loaded[i].active
    }

    /** Whether a registered project is called `name`. */
    predicate HasName(name: string)
      reads this
    {
      exists i | 0 <= i < |loaded| :: loaded[i].name == name
    }

    /** No two registered projects share a name. */
    predicate UniqueNames()
      reads this
    {
      forall i, j | 0 <= i < j < |loaded| :: loaded[i].name != loaded[j].name
    }
  }

  class Project {
    const name: string
    const root: Path
    const sources: Sources
    var build: Build
    var containers: map<string, Artifact>
    var active: bool
    var compilerConfig: CompilerConfig
    var written: seq<Path>   // the artifact files `_compile` wrote, in order

    /** The state `Project.__init__` reaches before it calls `load`. */
    constructor (name: string, root: Path, sources: Sources, build: Build)
      ensures this.name == name && this.root == root
      ensures this.sources == sources && this.build == build
      ensures containers == map[] && !active && compilerConfig == map[] && written == []
    {
      this.name := name;
      this.root := root;
      this.sources := sources;
      this.build := build;
      containers := map[];
      active := false;
      compilerConfig := map[];
      written := [];
    }

    /**
     * `_get_changed_contracts()`: the stale contracts widened by one step of
     * dependents are evicted from the build, and the source files defining
     * them are returned with their text. A staleness test that raises leaves
     * the build as it was; a missing source raises after the eviction.
     */
    method GetChangedContracts(hash: Hasher) returns (r: Result<map<string, string>, PyException>)
      modifies this`build
      ensures var stale := StaleList(sources, old(build), compilerConfig, hash, sources.contracts);
        && (stale.Failure? ==> r == Failure(stale.error) && build == old(build))
        && (stale.Success? ==>
              var final := FinalSet(old(build), stale.value);
              build == Evicted(old(build), final) && r == ChangedSources(sources, final))
    {
      var stale := StaleList(sources, build, compilerConfig, hash, sources.contracts);
      if stale.Failure? {
        return Failure(stale.error);
      }
      var final := Widen(stale.value);
      Evict(final);
      r := ChangedSources(sources, final);
    }

    /** `final = set(changed)`, then `final.update(get_dependents(c))` for each changed `c`. */
    method Widen(changed: seq<string>) returns (final: set<string>)
      ensures final == FinalSet(build, changed)
    {
      final := set c | c in changed;
      var j := 0;
      while j < |changed|
        invariant 0 <= j <= |changed|
        invariant final == (set c | c in changed) + FinalSet(build, changed[..j])
      {
        assert changed[..j + 1][..j] == changed[..j];
        final := final + Dependents(build, changed[j]);
        j := j + 1;
      }
      assert changed[..|changed|] == changed;
    }

    /** `self._build._remove(name)` for each member of `final` the build contains. */
    method Evict(final: set<string>)
      modifies this`build
      ensures build == Evicted(old(build), final)
    {
      var todo := final;
      while todo != {}
        invariant todo <= final
        invariant build.Keys == old(build).Keys - (final - todo)
        invariant forall k | k in build :: build[k] == old(build)[k]
        decreases |todo|
      {
        var n :| n in todo;
        if n in build {
          build := map k | k in build && k != n :: build[k];
        }
        todo := todo - {n};
      }
    }

    /**
     * `_compile(changed, config, silent)`: compile the changed sources under
     * the configured settings, add every artifact to the build and write its
     * file under `build/contracts`.
     */
    method Compile(changed: map<string, string>, config: CompilerConfig, compile: Compiler) returns (o: Outcome<PyException>)
      modifies this`build, this`written
      ensures var settings := CompileSettings(config);
        && (settings.Failure? ==> o == Fail(KeyError) && build == old(build) && written == old(written))
        && (settings.Success? && compile(changed, settings.value).Failure? ==>
              o == Fail(compile(changed, settings.value).error) && build == old(build) && written == old(written))
        && (settings.Success? && compile(changed, settings.value).Success? ==>
              var arts := compile(changed, settings.value).value;
              o == Pass && build == Install(old(build), arts) && written == old(written) + ArtifactFiles(root, arts))
    {
      var settings := CompileSettings(config);
      if settings.Failure? {
        return Fail(KeyError);
      }
      var out := compile(changed, settings.value);
      if out.Failure? {
        return Fail(out.error);
      }
      AddAll(out.value);
      o := Pass;
    }

    /** For each artifact in turn: `self._build._add(data)`, then write `build/contracts/<name>.json`. */
    method AddAll(arts: seq<Artifact>)
      modifies this`build, this`written
      ensures build == Install(old(build), arts)
      ensures written == old(written) + ArtifactFiles(root, arts)
    {
      var i := 0;
      while i < |arts|
        invariant 0 <= i <= |arts|
        invariant build == Install(old(build), arts[..i])
        invariant written == old(written) + ArtifactFiles(root, arts[..i])
      {
        assert arts[..i + 1][..i] == arts[..i];
        build := build[arts[i].contractName := arts[i]];
        written := written + [ArtifactFile(root, arts[i].contractName)];
        i := i + 1;
      }
      assert arts[..|arts|] == arts;
    }

    /** `_create_containers()`: a container for every built contract with bytecode. */
    method CreateContainers()
      modifies this`containers
      ensures containers == Deployable(build)
    {
      containers := map[];
      var todo := build.Keys;
      while todo != {}
        invariant todo <= build.Keys
        invariant containers == map k | k in build && k !in todo && build[k].bytecode != "" :: build[k]
        decreases |todo|
      {
        var k :| k in todo;
        if build[k].bytecode != "" {
          containers := containers[k := build[k]];
        }
        todo := todo - {k};
      }
    }

    /** `iter(project)`: the containers in sorted order of their names. */
    method Iter() returns (keys: seq<string>, items: seq<Artifact>)
      ensures StrictlySorted(keys)
      ensures forall k :: k in keys <==> k in containers
      ensures |items| == |keys| == |containers|
      ensures forall i | 0 <= i < |keys| :: keys[i] in containers && items[i] == containers[keys[i]]
    {
      keys := SortedKeys(containers.Keys);
      var c := containers;
      items := seq(|keys|, i requires 0 <= i < |keys| => c[keys[i]]);
    }

    /** `len(project)`: the number of containers. */
    method Len() returns (n: nat)
      ensures n == |containers.Keys|
    {
      n := |containers|;
    }

    /**
     * The part of `Project.load()` between the active check and the
     * registration: read the settings, detect and evict changed contracts
     * under the resolved version, restore the configured version, compile
     * and create the containers.
     */
    method Refresh(config: CompilerConfig, resolve: Resolver, hash: Hasher, compile: Compiler)
      returns (o: Outcome<PyException>)
      modifies this`compilerConfig, this`build, this`written, this`containers
      ensures o.Pass? <==> Reloaded(sources, old(build), config, resolve, hash, compile).Success?
      ensures o.Fail? ==> o.error == Reloaded(sources, old(build), config, resolve, hash, compile).error
      ensures o.Pass? ==>
        && build == Reloaded(sources, old(build), config, resolve, hash, compile).value
        && containers == Deployable(build)
        && compilerConfig == config
      ensures o.Fail? ==>
        && build == EvictedOnLoad(sources, old(build), config, resolve, hash) && containers == old(containers)
        && written == old(written)
      ensures o.Pass? ==>
        && build == Install(EvictedOnLoad(sources, old(build), config, resolve, hash),
                            Recompiled(sources, old(build), config, resolve, hash, compile))
        && written == old(written) + ArtifactFiles(root, Recompiled(sources, old(build), config, resolve, hash, compile))
    {
      compilerConfig := config;
      var det := DetectionConfig(config, resolve);
      if det.Failure? {
        return Fail(det.error);
      }
      compilerConfig := det.value;
      var changed := GetChangedContracts(hash);
      if changed.Failure? {
        return Fail(changed.error);
      }
      compilerConfig := config;
      o := Compile(changed.value, compilerConfig, compile);
      if o.Fail? {
        return;
      }
      CreateContainers();
    }

    /**
     * `Project.load()`: refuse an active project; read the compiler settings;
     * detect changes under the resolved version and restore the configured
     * one; compile, create the containers, mark the project active and
     * register it.
     */
    method Load(reg: Registry, config: CompilerConfig, resolve: Resolver, hash: Hasher, compile: Compiler)
      returns (o: Outcome<PyException>)
      modifies this, reg
      ensures old(active) ==> (o == Fail(ProjectAlreadyLoaded) && active && build == old(build) && containers == old(containers)
        && written == old(written))
      ensures o.Fail? ==> reg.loaded == old(reg.loaded)
      ensures !old(active) ==> (o.Pass? <==> Reloaded(sources, old(build), config, resolve, hash, compile).Success?)
      ensures !old(active) && o.Fail? ==>
        && !active && o.error == Reloaded(sources, old(build), config, resolve, hash, compile).error
        && build == EvictedOnLoad(sources, old(build), config, resolve, hash) && containers == old(containers)
        && written == old(written)
      ensures o.Pass? ==>
        && build == Install(EvictedOnLoad(sources, old(build), config, resolve, hash),
                            Recompiled(sources, old(build), config, resolve, hash, compile))
        && written == old(written) + ArtifactFiles(root, Recompiled(sources, old(build), config, resolve, hash, compile))
      ensures o.Pass? ==>
        && build == Reloaded(sources, old(build), config, resolve, hash, compile).value
        && containers == Deployable(build)
        && compilerConfig == config
        && active && reg.loaded == old(reg.loaded) + [this]
      ensures old(reg.Consistent()) ==> reg.Consistent()
    {
      if active {
        return Fail(ProjectAlreadyLoaded);
      }
      ghost var consistent := reg.Consistent();
      assert consistent ==> this !in reg.loaded;
      o := Refresh(config, resolve, hash, compile);
      if o.Fail? {
        return;
      }
      active := true;
      reg.loaded := reg.loaded + [this];
    }

    /**
     * `Project.close(raises)`: an inactive project raises ProjectNotFound,
     * or does nothing when `raises` is false. Otherwise the project is marked
     * inactive, removed from the registry (ValueError when it is not there)
     * and its path removed from `sys.path`.
     */
    method Close(reg: Registry, sysPath: SysPath, raises: bool) returns (o: Outcome<PyException>)
      modifies this`active, reg, sysPath
      ensures !old(active) ==> (o == (if raises then Fail(ProjectNotFound) else Pass) &&
        !active && reg.loaded == old(reg.loaded) && sysPath.entries == old(sysPath.entries))
      ensures old(active) ==> !active
      ensures old(active) && this !in old(reg.loaded) ==> (o == Fail(ValueError) &&
        reg.loaded == old(reg.loaded) && sysPath.entries == old(sysPath.entries))
      ensures old(active) && this in old(reg.loaded) ==> (o == Pass &&
        reg.loaded == ListRemove(old(reg.loaded), this).value &&
        sysPath.entries == CloseSysPath(old(sysPath.entries), root))
      ensures old(reg.Consistent()) && old(active) ==> this !in reg.loaded
      ensures old(reg.Consistent()) ==> reg.Consistent()
    {
      if !active {
        if !raises {
          return Pass;
        }
        return Fail(ProjectNotFound);
      }
      active := false;
      var removed := ListRemove(reg.loaded, this);
      if removed.Failure? {
        return Fail(ValueError);
      }
      reg.loaded := removed.value;
      sysPath.Remove(root);
      o := Pass;
    }
  }

  /**
   * The build `Project.load` leaves on an inactive project, or the exception
   * it raises: the stale contracts (tested under the resolved version) and
   * their dependents are evicted, the files defining them compiled under the
   * configured settings, and the artifacts installed.
   */
  function Reloaded(src: Sources, build: Build, config: CompilerConfig, resolve: Resolver, hash: Hasher, compile: Compiler)
    : Result<Build, PyException>
  {
    var det := DetectionConfig(config, resolve);
    if det.Failure? then Failure(det.error)
    else
      var stale := StaleList(src, build, det.value, hash, src.contracts);
      if stale.Failure? then Failure(stale.error)
      else
        var final := FinalSet(build, stale.value);
        var changed := ChangedSources(src, final);
        if changed.Failure? then Failure(changed.error)
        else
          var settings := CompileSettings(config);
          if settings.Failure? then Failure(settings.error)
          else
            var arts := compile(changed.value, settings.value);
            if arts.Failure? then Failure(arts.error)
            else Success(Install(Evicted(build, final), arts.value))
  }

  /**
   * The build a load that raises leaves behind: nothing is installed, but
   * once the staleness test has run the stale contracts and their dependents
   * stay evicted.
   */
  function EvictedOnLoad(src: Sources, build: Build, config: CompilerConfig, resolve: Resolver, hash: Hasher): (b: Build)
    ensures b.Keys <= build.Keys
    ensures forall k | k in b :: b[k] == build[k]
    ensures DetectionConfig(config, resolve).Failure? ==> b == build
  {
    var det := DetectionConfig(config, resolve);
    if det.Failure? then build
    else
      var stale := StaleList(src, build, det.value, hash, src.contracts);
      if stale.Failure? then build
      else Evicted(build, FinalSet(build, stale.value))
  }

  /**
   * The artifacts the compiler returns during a load that succeeds, in the
   * order it returns them: one for every contract of every changed source
   * file, including contracts that were not stale.
   */
  function Recompiled(src: Sources, build: Build, config: CompilerConfig, resolve: Resolver, hash: Hasher, compile: Compiler)
    : (arts: seq<Artifact>)
    requires Reloaded(src, build, config, resolve, hash, compile).Success?
    ensures Reloaded(src, build, config, resolve, hash, compile).value == Install(EvictedOnLoad(src, build, config, resolve, hash), arts)
  {
    var det := DetectionConfig(config, resolve).value;
    var final := FinalSet(build, StaleList(src, build, det, hash, src.contracts).value);
    compile(ChangedSources(src, final).value, CompileSettings(config).value).value
  }

  /**
   * The build `Project(name, project_path)` ends with, or the exception it
   * raises: the stored artifacts that survive validation, reloaded.
   */
  function InitialBuild(disk: Disk, tools: Toolchain): (r: Result<Build, PyException>)
    requires forall i | 0 <= i < |disk.found| :: disk.found[i].0 != []
    ensures Validate(disk.buildFiles, tools.buildKeys, disk.sourceExists).Failure? ==>
      r == Failure(Validate(disk.buildFiles, tools.buildKeys, disk.sourceExists).error)
  {
    var stored := Validate(disk.buildFiles, tools.buildKeys, disk.sourceExists);
    if stored.Failure? then Failure(stored.error)
    else Reloaded(tools.index(SourceMap(disk.found)), stored.value.build, disk.compilerConfig, tools.resolve, tools.hash, tools.compile)
  }

  /**
   * After a load the build holds exactly the artifacts that were neither
   * evicted nor recompiled, unchanged, and the compiled ones.
   */
  lemma ReloadedKeys(src: Sources, build: Build, config: CompilerConfig, resolve: Resolver, hash: Hasher, compile: Compiler)
    requires Reloaded(src, build, config, resolve, hash, compile).Success?
    ensures var det := DetectionConfig(config, resolve).value;
      var final := FinalSet(build, StaleList(src, build, det, hash, src.contracts).value);
      var arts := compile(ChangedSources(src, final).value, CompileSettings(config).value).value;
      var rebuilt := Reloaded(src, build, config, resolve, hash, compile).value;
      && rebuilt.Keys == (build.Keys - final) + Names(arts)
      && forall k | k in build && k !in final && k !in Names(arts) :: rebuilt[k] == build[k]
  {
    var det := DetectionConfig(config, resolve).value;
    var final := FinalSet(build, StaleList(src, build, det, hash, src.contracts).value);
    var arts := compile(ChangedSources(src, final).value, CompileSettings(config).value).value;
    var evicted := Evicted(build, final);
    InstallKeys(evicted, arts);
    forall k | k in build && k !in final && k !in Names(arts)
      ensures Install(evicted, arts)[k] == build[k]
    {
      InstallKeepsOthers(evicted, arts, k);
    }
  }

  /**
   * When no contract is stale and the compiler, given no sources, returns no
   * artifacts, a load leaves the build as it was.
   */
  lemma NothingStaleKeepsBuild(src: Sources, build: Build, config: CompilerConfig, resolve: Resolver, hash: Hasher, compile: Compiler)
    requires DetectionConfig(config, resolve).Success?
    requires forall n | n in src.contracts :: IsStale(src, build, DetectionConfig(config, resolve).value, hash, n) == Success(false)
    requires CompileSettings(config).Success? && compile(map[], CompileSettings(config).value) == Success([])
    ensures Reloaded(src, build, config, resolve, hash, compile) == Success(build)
  {
    NoEditsNothingRecompiled(src, build, DetectionConfig(config, resolve).value, hash, src.contracts);
  }

  /** The name the module-level `load` gives a project: the one asked for, or the one derived from its folder. */
  function ProjectName(root: Path, name: Option<string>): (r: string)
    ensures name.Some? ==> r == name.value
    ensures name.None? ==> forall i | 0 <= i < |r| :: IsAlpha(r[i])
  {
    if name.Some? then name.value else DefaultName(Name(root))
  }

  /**
   * `Project(name, project_path)`: read the sources that pass the filter,
   * keep the valid stored artifacts (returning the files deleted), then
   * `load`. A stored file that raises, or a `load` that raises, leaves no
   * project.
   */
  method CreateProject(name: string, root: Path, disk: Disk, tools: Toolchain, reg: Registry)
    returns (r: Result<Project, PyException>, deleted: seq<Path>)
    requires forall i | 0 <= i < |disk.found| :: disk.found[i].0 != []
    modifies reg
    ensures var stored := Validate(disk.buildFiles, tools.buildKeys, disk.sourceExists);
      && (stored.Failure? ==> r == Failure(stored.error))
      && deleted == Deleted(disk.buildFiles, tools.buildKeys, disk.sourceExists)
      && (stored.Success? ==>
            var reloaded := Reloaded(tools.index(SourceMap(disk.found)), stored.value.build,
                                     disk.compilerConfig, tools.resolve, tools.hash, tools.compile);
            && (r.Success? <==> reloaded.Success?)
            && (r.Failure? ==> r.error == reloaded.error)
            && (r.Success? ==> r.value.build == reloaded.value)
            && (r.Success? ==>
                  r.value.written == ArtifactFiles(root, Recompiled(tools.index(SourceMap(disk.found)), stored.value.build,
                                                                    disk.compilerConfig, tools.resolve, tools.hash, tools.compile))))
    ensures r.Success? <==> InitialBuild(disk, tools).Success?
    ensures r.Failure? ==> r.error == InitialBuild(disk, tools).error
    ensures r.Success? ==> r.value.build == InitialBuild(disk, tools).value
    ensures r.Failure? ==> reg.loaded == old(reg.loaded)
    ensures r.Success? ==>
      && fresh(r.value) && r.value.active && r.value.name == name && r.value.root == root
      && r.value.sources == tools.index(SourceMap(disk.found))
      && r.value.containers == Deployable(r.value.build)
      && reg.loaded == old(reg.loaded) + [r.value]
    ensures old(reg.Consistent()) ==> reg.Consistent()
  {
    var texts := CollectSources(disk.found);
    var stored;
    stored, deleted := ValidateBuildFiles(disk.buildFiles, tools.buildKeys, disk.sourceExists);
    if stored.Failure? {
      return Failure(stored.error), deleted;
    }
    var p := new Project(name, root, tools.index(texts), stored.value.build);
    assert old(reg.Consistent()) ==> reg.Consistent();
    var o := p.Load(reg, disk.compilerConfig, tools.resolve, tools.hash, tools.compile);
    if o.Fail? {
      return Failure(o.error), deleted;
    }
    r := Success(p);
  }

  /**
   * The module-level `load(project_path, name)`: find the project (the
   * nearest enclosing one when no path is given), derive its name, refuse a
   * name already loaded, put its path on `sys.path` and create it.
   */
  method LoadProject(path: Option<Path>, name: Option<string>, cwd: Path, fs: FileSystem, disk: Disk, tools: Toolchain,
                     reg: Registry, sysPath: SysPath)
    returns (r: Result<Project, PyException>, deleted: seq<Path>)
    requires forall i | 0 <= i < |disk.found| :: disk.found[i].0 != []
    modifies reg, sysPath
    ensures var target := if path.Some? then path else NearestProject(fs, cwd);
      && (target.None? || ProjectConfigPath(fs, target.value).None? ==>
            && r == Failure(ProjectNotFound) && deleted == []
            && reg.loaded == old(reg.loaded) && sysPath.entries == old(sysPath.entries))
      && (target.Some? && ProjectConfigPath(fs, target.value).Some? && old(reg.HasName(ProjectName(target.value, name))) ==>
            && r == Failure(ProjectAlreadyLoaded) && deleted == []
            && reg.loaded == old(reg.loaded) && sysPath.entries == old(sysPath.entries))
      && (target.Some? && ProjectConfigPath(fs, target.value).Some? && !old(reg.HasName(ProjectName(target.value, name))) ==>
            && (r.Success? <==> InitialBuild(disk, tools).Success?)
            && (r.Failure? ==> r.error == InitialBuild(disk, tools).error)
            && deleted == Deleted(disk.buildFiles, tools.buildKeys, disk.sourceExists)
            && sysPath.entries == WithProjectPath(old(sysPath.entries), target.value))
      && (r.Success? ==>
            && r.value.sources == tools.index(SourceMap(disk.found))
            && r.value.build == InitialBuild(disk, tools).value
            && target.Some? && r.value.root == target.value && r.value.name == ProjectName(target.value, name)
            && r.value.active && reg.loaded == old(reg.loaded) + [r.value]
            && sysPath.entries == WithProjectPath(old(sysPath.entries), target.value))
    ensures r.Failure? ==> reg.loaded == old(reg.loaded)
    ensures old(reg.Consistent()) ==> reg.Consistent()
    ensures old(reg.UniqueNames()) ==> reg.UniqueNames()
  {
    var target := path;
    if target.None? {
      // `check_for_project(".")`; the method `CheckForProject` computes the same value
      target := NearestProject(fs, cwd);
    }
    if target.None? || ProjectConfigPath(fs, target.value).None? {
      return Failure(ProjectNotFound), [];
    }
    r, deleted := Register(ProjectName(target.value, name), target.value, disk, tools, reg, sysPath);
  }

  /**
   * The end of `load` once the project is found and named: refuse a name
   * already loaded, put the path on `sys.path` and create the project.
   */
  method Register(projectName: string, root: Path, disk: Disk, tools: Toolchain, reg: Registry, sysPath: SysPath)
    returns (r: Result<Project, PyException>, deleted: seq<Path>)
    requires forall i | 0 <= i < |disk.found| :: disk.found[i].0 != []
    modifies reg, sysPath
    ensures old(reg.HasName(projectName)) ==>
      && r == Failure(ProjectAlreadyLoaded) && deleted == []
      && reg.loaded == old(reg.loaded) && sysPath.entries == old(sysPath.entries)
    ensures !old(reg.HasName(projectName)) ==>
      && (r.Success? <==> InitialBuild(disk, tools).Success?)
      && (r.Failure? ==> r.error == InitialBuild(disk, tools).error)
      && deleted == Deleted(disk.buildFiles, tools.buildKeys, disk.sourceExists)
      && sysPath.entries == WithProjectPath(old(sysPath.entries), root)
    ensures r.Success? ==>
      && r.value.root == root && r.value.name == projectName && r.value.active
      && r.value.sources == tools.index(SourceMap(disk.found))
      && r.value.build == InitialBuild(disk, tools).value
      && reg.loaded == old(reg.loaded) + [r.value]
      && sysPath.entries == WithProjectPath(old(sysPath.entries), root)
    ensures r.Failure? ==> reg.loaded == old(reg.loaded)
    ensures old(reg.Consistent()) ==> reg.Consistent()
    ensures old(reg.UniqueNames()) ==> reg.UniqueNames()
  {
    if reg.HasName(projectName) {
      return Failure(ProjectAlreadyLoaded), [];
    }
    sysPath.Add(root);
    r, deleted := CreateProject(projectName, root, disk, tools, reg);
  }

  /** `get_loaded_projects()`: a copy of the registry, which later loads and closes leave as it is. */
  method GetLoadedProjects(reg: Registry) returns (ps: seq<Project>)
    ensures ps == reg.loaded
  {
    ps := reg.loaded;
  }
}
