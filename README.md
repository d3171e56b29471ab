# Brownie project bookkeeping and configuration, in Dafny

This project models two parts of the Brownie smart-contract framework and proves
properties of them.

- **The incremental build of a project** (`brownie/project/main.py`). It covers:
  - which Solidity sources are read;
  - which stored build artifacts survive a restart;
  - when a contract is stale;
  - how the stale set is widened by the contracts that depend on it;
  - what is evicted from the build and what is recompiled;
  - the contract containers and their sorted iteration;
  - the `load`/`close` lifecycle with the `_active` flag and the `_loaded_projects` registry;
  - the module-level `load` with its name derivation and name-uniqueness check;
  - `check_for_project`, `_new_checks` and `sys.path`.
- **The configuration dictionary** (`brownie/_config.py`). It covers:
  - `ConfigDict` with its recursive lock;
  - `_copy`;
  - the configuration-file lookup;
  - stripping `//` comments from JSON text;
  - `_recursive_update`;
  - `_modify_network_config`;
  - `_update_argv_from_docopt`.

Modules, in dependency order:

| file | module | contents |
|---|---|---|
| `wrappers.dfy` | `Wrappers` | `Option`, `Result`, `Outcome`, and the Python exceptions raised |
| `path_model.dfy` | `PathModel` | POSIX paths as component lists, the part of `pathlib` used, and `str` containment |
| `config_values.dfy` | `ConfigValues` | configuration leaves and values (Python truthiness, `True == 1`), the class `ConfigDict`, lock and copy |
| `config_files.dfy` | `ConfigFiles` | `_get_project_config_path` and the comment-stripping regular expression |
| `config_merge.dfy` | `ConfigMerge` | `_recursive_update`, `_modify_network_config`, `ARGV` and `_update_argv_from_docopt` |
| `lex_order.dfy` | `LexOrder` | Python's `str` ordering and `sorted` over a key set |
| `staleness.dfy` | `Staleness` | artifacts, the build, sources, and `_compare_build_json` |
| `change_set.dfy` | `ChangeSet` | what `_get_changed_contracts` computes |
| `project_helpers.dfy` | `ProjectHelpers` | the source filter, artifact validation, the default name, `check_for_project`, `_new_checks`, `sys.path` |
| `project_model.dfy` | `ProjectModel` | the `Project` class, the registry, `Project.__init__`, the module-level `load`, `get_loaded_projects` |

How the source's shape is kept:

- State the source updates in place is a Dafny `class`:
  - `ConfigDict` (entries and lock flag);
  - `Argv`;
  - `SysPath`;
  - `Project` (build, containers, `_active`, compiler settings, files written);
  - `Registry` (`_loaded_projects`).
- Each loop of the source is a method with loop invariants, proved against a specification function:
  - `ConfigDict.Update`;
  - `Argv.UpdateFromDocopt`;
  - `CollectSources`;
  - `ValidateBuildFiles`;
  - `CheckForProject`;
  - `Project.Widen`, `Project.Evict`, `Project.AddAll` and `Project.CreateContainers`.
- Pure computations are functions, and their properties are lemmas.

Python behaviour the model keeps explicit:

- Truthiness: `runs: 0`, `optimize: false` and `version: None` are falsy.
- `True == 1`.
- The first-match order of `next(...)`: a missing configuration key raises only when no earlier setting already differed.
- The evaluation order of `{**a, **b}`: the network's own entries win.
- The lazy regular expression `\/\/[^"]*?(?=\n|$)`.
- `str.title`, `str.isalpha` and `str.lstrip("-")`.
- `list.remove`: it removes the first occurrence and raises ValueError when there is none.
- A `Path` object never compares equal to a `str`.

Two behaviours of the code that the model keeps as they are:

- **Dependents are taken one step only.** `brownie/project/main.py:158-160` adds the dependents of the contracts found stale, and no transitive closure is taken.
  - `ChangeSet.OneStepOnly` shows a chain A ← B ← C in which editing A recompiles B but not C.
  - `ChangeSet.OneStepClosedWhenTransitive` shows that one step suffices when every artifact records its dependencies transitively.
- **One compiler call, artifacts in the order returned.** `_compile` makes one compiler call and adds each artifact the compiler returns, in the order it returns them. `ProjectModel.Install` keeps that order, so the last artifact with a given name wins.

## Model

| member | source | states |
|---|---|---|
| ConfigValues.Wrap | brownie/_config.py:28-29 | a plain dict assigned into a ConfigDict is stored as an unlocked ConfigDict with the same keys and, recursively, the same entries; any other value is stored as given |
| ConfigValues.SetLocks | brownie/_config.py:36-46 | `_lock`/`_unlock` set the flag on the dict and on every nested ConfigDict (`LocksAre`), keep every key and leaf, and leave plain dicts as they are |
| ConfigValues.LockThenUnlock | brownie/_config.py:36-46 | locking and then unlocking leaves the same dict as unlocking alone, so unrestricted insertion is restored |
| ConfigValues.Copy | brownie/_config.py:48-54 | `_copy` keeps the keys and leaves, turns every nested ConfigDict into a plain dict, and yields a value with no ConfigDict left when the plain dicts inside held none |
| ConfigValues.Store | brownie/_config.py:25-30 | `__setitem__` raises KeyError exactly when the dict is locked and lacks the key; otherwise the key is present with the (wrapped) value, and every other key keeps its value |
| ConfigValues.UpdateUnlocked | brownie/_config.py:32-34 | an unlocked dict accepts every pair of an update: all keys are added and untouched keys keep their values |
| ConfigValues.UpdateLocked | brownie/_config.py:32-34 | an update of a locked dict never adds a key, and it succeeds exactly when every key is already present |
| ConfigValues.ConfigDict.constructor | brownie/_config.py:20-23 | a new ConfigDict is unlocked and holds exactly the keys of the values it was built from, stored through `update` |
| ConfigValues.ConfigDict.SetItem | brownie/_config.py:25-30 | the entries after assignment and the outcome are those of `Store`; the lock flag is unchanged |
| ConfigValues.ConfigDict.Update | brownie/_config.py:32-34 | the loop over the pairs yields the entries and outcome of `ApplyUpdate` and stops at the first KeyError |
| ConfigValues.ConfigDict.Lock | brownie/_config.py:36-40 | afterwards the dict and every nested ConfigDict are locked, with the same entries otherwise |
| ConfigValues.ConfigDict.Unlock | brownie/_config.py:42-46 | afterwards the dict and every nested ConfigDict are unlocked, with the same entries otherwise |
| ConfigFiles.ConfigBase | brownie/_config.py:58-61 | a directory is looked up through `brownie-config` inside it, and any other path as itself |
| ConfigFiles.FirstExisting | brownie/_config.py:62-65 | the result is the first suffix, in the order given, whose file exists; it is None exactly when none exists |
| ConfigFiles.ProjectConfigPath | brownie/_config.py:57-65 | a path that is found exists |
| ConfigFiles.DirectoryConfigCandidates | brownie/_config.py:57-65 | for a directory the candidates are `brownie-config.yml`, then `.yaml`, then `.json` |
| ConfigFiles.StripComments | brownie/_config.py:77 | the substitution never lengthens the text and leaves text without "//" unchanged |
| ConfigFiles.CommentIsPlain | brownie/_config.py:77 | a removed comment holds neither a newline nor a double quote |
| ConfigFiles.StripKeepsNewlinesAndQuotes | brownie/_config.py:77 | stripping keeps every newline and every double quote, so line structure and JSON strings survive |
| ConfigFiles.StripCommentExample | brownie/_config.py:77 | a comment is cut up to, and not including, its newline |
| ConfigFiles.KeepQuotedSlashesExample | brownie/_config.py:77 | a "//" followed by a double quote on its line, as inside a JSON string, is kept |
| ConfigMerge.Assign | brownie/_config.py:134 | `original[k] = v` fails exactly on a locked ConfigDict lacking `k`, with KeyError; otherwise it stores `v` with the same keys and leaves |
| ConfigMerge.MergeKey | brownie/_config.py:133-138 | the warnings of one merged key lie under the current key path and touch no IGNORE key |
| ConfigMerge.RecursiveUpdate | brownie/_config.py:130-143 | on success the result is a dict of the same kind and lock, holding the keys of both; keys only in `original` keep their values; every warning lies under `base` and avoids IGNORE |
| ConfigMerge.MergeKeyCases | brownie/_config.py:132-138 | every key of the new dict ends up in the result: a dict under a REPLACE key is stored wholesale, a dict under an existing key is merged recursively, a dict under a new key is stored wrapped as a ConfigDict with the same contents, and a leaf is stored as given |
| ConfigMerge.MissingKeysWarned | brownie/_config.py:139-143 | a key of `original` that the new dict lacks is warned about unless its path touches IGNORE |
| ConfigMerge.WarnedKeysAreMissing | brownie/_config.py:130-143 | conversely, every warning one level below `base` names a key of `original` that the new dict lacks; nested merges only warn deeper |
| ConfigMerge.LockedRefusesNewKey | brownie/_config.py:132-138 | merging a new key into a locked ConfigDict raises KeyError |
| ConfigMerge.UnlockedMergeSucceeds | brownie/_config.py:130-138 | merging into an unlocked configuration of matching shape always succeeds |
| ConfigMerge.Lookup | brownie/_config.py:111 | `d[key]` succeeds exactly for a dict holding the key and returns its entry; otherwise it raises KeyError, or TypeError when `d` is not a dict |
| ConfigMerge.Overlay | brownie/_config.py:113-117 | the new `active_network` is an unlocked ConfigDict holding the keys of the settings, of the network and `name`; the network's entries win and `name` is the network |
| ConfigMerge.WithPytest | brownie/_config.py:120 | after `update(pytest)` the keys are the union and pytest's entries win |
| ConfigMerge.Activate | brownie/_config.py:110-123 | whenever a value is returned, it is the one stored as `active_network` |
| ConfigMerge.ActivateNetwork | brownie/_config.py:108-127 | only `active_network` can change; no other key is added or altered; on success CONFIG holds the returned value under `active_network` |
| ConfigMerge.ActivateOverlay | brownie/_config.py:113-117 | outside test mode, a defined network returns the network settings overlaid on the defaults, named after the network |
| ConfigMerge.ActivateForTests | brownie/_config.py:119-121 | in test mode the `pytest` settings are laid over the network's; the call succeeds exactly when `reverting_tx_gas_limit` is then present, and raises KeyError otherwise |
| ConfigMerge.FalsyNetworkMeansDefault | brownie/_config.py:110-111 | a falsy network argument behaves exactly as `network.default` |
| ConfigMerge.UndefinedNetworkRaises | brownie/_config.py:115 | an undefined network raises KeyError and changes nothing |
| ConfigMerge.ModifyNetworkConfig | brownie/_config.py:106-127 | CONFIG is locked on every exit, recursively; its entries and the returned value are those of `ActivateNetwork` on the unlocked entries, with `ARGV["cli"]` (None when absent) as the command; once the network is selected, reading `ARGV["cli"]` inserts a missing "cli" key as None, and ARGV is otherwise unchanged |
| ConfigMerge.LStripDashes | brownie/_config.py:147 | the result does not start with '-' |
| ConfigMerge.LStripDashesRemovesLeadingRun | brownie/_config.py:147 | stripping removes a leading run of dashes and nothing else |
| ConfigMerge.NormalizedKeys | brownie/_config.py:147 | the keys stored are exactly the argument names with their leading dashes stripped |
| ConfigMerge.NormalizedLastWins | brownie/_config.py:147 | a key holds the value of the last argument that strips to it |
| ConfigMerge.NormalizedKeysHaveNoDash | brownie/_config.py:147 | no key ARGV receives starts with a dash |
| ConfigMerge.Argv.constructor | brownie/_config.py:151 | ARGV starts empty |
| ConfigMerge.Argv.Get | brownie/_config.py:151 | a present key reads its value and changes nothing; a missing key reads as None and is inserted with value None, as a `defaultdict(lambda: None)` does |
| ConfigMerge.Argv.UpdateFromDocopt | brownie/_config.py:146-147 | the loop builds `Normalized(args)`, and ARGV becomes its old entries overridden by it |
| LexOrder.LessIrreflexive | brownie/project/main.py:69 | no string sorts before itself |
| LexOrder.LessTransitive | brownie/project/main.py:69 | the string order is transitive |
| LexOrder.LessTotal | brownie/project/main.py:69 | two different strings are ordered one way or the other |
| LexOrder.LessAsymmetric | brownie/project/main.py:69 | two strings are never ordered both ways |
| LexOrder.Least | brownie/project/main.py:69 | the result is a member of the set and sorts before every other member |
| LexOrder.SortedKeys | brownie/project/main.py:69 | `sorted` of a key set is strictly increasing and holds exactly the set's members, once each |
| Staleness.SettingsDiffer | brownie/project/main.py:175-177 | a True result means some stored setting differs from a truthy configured one; a KeyError means some stored key is not configured; with every key configured the result is exactly whether some setting differs |
| Staleness.IsStale | brownie/project/main.py:166-177 | a missing source or artifact makes a contract stale; the only exception is KeyError |
| Staleness.StaleExactly | brownie/project/main.py:166-177 | with every setting configured, a contract is stale exactly when its source or artifact is missing, its hash changed, or a stored setting differs from a truthy configured one |
| Staleness.FalsySettingsNeverStale | brownie/project/main.py:175-177 | falsy configured settings never make an artifact with a matching hash stale |
| Staleness.ChangedSettingStale | brownie/project/main.py:175-177 | a truthy configured setting that differs from the stored one makes the contract stale |
| Staleness.FreshArtifactNotStale | brownie/project/main.py:166-177 | an artifact built from the current source under the current settings is not stale |
| ChangeSet.StaleList | brownie/project/main.py:157 | the list holds exactly the contracts whose test says stale, and it succeeds exactly when no test raises |
| ChangeSet.Dependents | brownie/project/main.py:160 | the dependents of `name` are exactly the built contracts that record it as a dependency |
| ChangeSet.FinalSet | brownie/project/main.py:158-160 | the final set holds every changed contract and its dependents, and nothing else |
| ChangeSet.Evicted | brownie/project/main.py:161-162 | after eviction no member of the final set is built; every other artifact is kept unchanged |
| ChangeSet.ChangedSources | brownie/project/main.py:163-164 | the keys are exactly the distinct source paths of the final set, each with its text; a contract without a source raises KeyError |
| ChangeSet.StaleAndDependentsInFinal | brownie/project/main.py:157-160 | every stale contract, and every contract recording one as a dependency, is recompiled |
| ChangeSet.OneStepOnly | brownie/project/main.py:158-160 | with B depending on A and C on B, a change to A recompiles A and B only |
| ChangeSet.OneStepClosedWhenTransitive | brownie/project/main.py:158-160 | when dependencies are recorded transitively, the final set contains the dependents of all its members |
| ChangeSet.NoEditsNothingRecompiled | brownie/project/main.py:156-164 | when nothing is stale, nothing is recompiled and the build keeps every artifact |
| ProjectHelpers.SkipFiltersAgree | brownie/project/main.py:99-101 | below a root whose own string holds no "/_", the as-written filter and the intended filter agree |
| ProjectHelpers.SkipFilterCounterexample | brownie/project/main.py:100 | under `/home/_me/proj`, `contracts/Token.sol` is skipped as written but kept as intended |
| ProjectHelpers.SourceMapKeys | brownie/project/main.py:99-105 | exactly the files passing the filter are read, each under its project-relative path |
| ProjectHelpers.SourceMapTexts | brownie/project/main.py:99-105 | every text read is the content of a file passing the filter, stored under that file's relative path |
| ProjectHelpers.CollectSources | brownie/project/main.py:98-105 | the loop yields `SourceMap` of the globbed files |
| ProjectHelpers.Keep | brownie/project/main.py:112-118 | a file is kept only if it parsed, holds every BUILD_KEYS key and its `sourcePath` exists; unparseable text counts as `{}` and is rejected |
| ProjectHelpers.ValidateSucceeds | brownie/project/main.py:108-120 | validation succeeds exactly when no stored file raises |
| ProjectHelpers.ValidateKeepsKept | brownie/project/main.py:114-120 | every kept file's artifact is in the build under its contract name |
| ProjectHelpers.ValidateOnlyKept | brownie/project/main.py:114-120 | every artifact in the build comes from a kept file and is stored under its own contract name |
| ProjectHelpers.ValidateUnlinksRejected | brownie/project/main.py:114-119 | exactly the files that are not kept are deleted |
| ProjectHelpers.ValidateSorts | brownie/project/main.py:108-120 | validation fails only when a file raises; otherwise every kept file's artifact is in the build under its name, nothing else is added, and exactly the rejected files are deleted |
| ProjectHelpers.ValidateBuildFiles | brownie/project/main.py:108-120 | the loop yields `Validate` of the stored build files, and the files it deleted are `Deleted` of them, also when a file raises |
| ProjectHelpers.Deleted | brownie/project/main.py:108-119 | when validation succeeds, the deleted files are exactly the ones it reports unlinked |
| ProjectHelpers.DeletedStopsAtRaise | brownie/project/main.py:108-119 | when a file raises, validation raises and the files deleted are the ones rejected before it |
| ProjectHelpers.DeletedAreRejected | brownie/project/main.py:113-118 | every deleted file is one that was parsed without raising and rejected |
| ProjectHelpers.ValidateFailureStays | brownie/project/main.py:108-120 | once a file raises, the whole validation raises the same |
| ProjectHelpers.LowerChars | brownie/project/main.py:355 | `str.lower` lowers each character in place |
| ProjectHelpers.TitleChars | brownie/project/main.py:357 | `str.title` keeps each character's lowered form and which characters are letters |
| ProjectHelpers.LowerOfTitle | brownie/project/main.py:355-357 | lowering a title-cased text gives the lowered original, so title-casing changes case only |
| ProjectHelpers.Letters | brownie/project/main.py:357 | only letters are kept |
| ProjectHelpers.DefaultName | brownie/project/main.py:353-357 | the derived name holds only letters |
| ProjectHelpers.DefaultNameAddsProject | brownie/project/main.py:355-357 | when the lowered folder name does not end in "project", the name is the folder's title-cased letters followed by "Project" |
| ProjectHelpers.DefaultNameEndsInProject | brownie/project/main.py:353-357 | whatever the folder, the derived name ends in "project" once lowered |
| ProjectHelpers.Nearest | brownie/project/main.py:239-242 | a folder found is the path or one of its ancestors, and it satisfies the test |
| ProjectHelpers.NearestIsNearest | brownie/project/main.py:239-242 | no folder between the path and the one found satisfies the test, and None means that no ancestor does |
| ProjectHelpers.NearestProject | brownie/project/main.py:236-242 | a folder found is an ancestor-or-self holding a configuration file |
| ProjectHelpers.CheckForProject | brownie/project/main.py:236-242 | the loop up through the parents returns `NearestProject` |
| ProjectHelpers.NewChecks | brownie/project/main.py:304-312 | the only error is SystemError, and a success returns the path |
| ProjectHelpers.NewChecksExactly | brownie/project/main.py:304-312 | a project may be created exactly outside the installation folder and, unless subfolders are allowed, where no proper ancestor is a project |
| ProjectHelpers.AsWrittenRefusesMore | brownie/project/main.py:306-307 | every path the intended test refuses, the substring test refuses too |
| ProjectHelpers.NewChecksCounterexample | brownie/project/main.py:306-307 | `/opt/brownie-mix/token` is refused as written beside an installation in `/opt/brownie`, and accepted as intended |
| ProjectHelpers.ListRemove | brownie/project/main.py:213 | `list.remove` raises ValueError exactly when the item is absent; otherwise it drops the first occurrence and keeps the order of the rest |
| ProjectHelpers.WithProjectPath | brownie/project/main.py:374-378 | the path's string is in `sys.path` afterwards: inserted at the front if absent, with nothing changed if present |
| ProjectHelpers.AddIdempotent | brownie/project/main.py:374-378 | adding the same path twice changes nothing more |
| ProjectHelpers.CloseAsWrittenKeepsPath | brownie/project/main.py:216-219 | as written, closing leaves the project path in a `sys.path` of strings |
| ProjectHelpers.AddThenCloseRestores | brownie/project/main.py:216-219 | as intended, adding a new project path and closing the project restores `sys.path` |
| ProjectHelpers.SysPath.Add | brownie/project/main.py:374-378 | the entries become `WithProjectPath` of the old ones |
| ProjectHelpers.SysPath.Remove | brownie/project/main.py:216-219 | the entries become `CloseSysPath` of the old ones |
| ProjectModel.CompileSettings | brownie/project/main.py:41-45 | the five settings are read in order; KeyError exactly when one is not configured |
| ProjectModel.DetectionConfig | brownie/project/main.py:131-134 | a missing `version` raises KeyError; a falsy one leaves the settings as they are; otherwise only `version` is replaced |
| ProjectModel.Install | brownie/project/main.py:49-50 | the build keeps its names and gains the name of every artifact |
| ProjectModel.InstallKeys | brownie/project/main.py:48-50 | the build's names afterwards are its old names plus the artifacts' names |
| ProjectModel.InstallKeepsOthers | brownie/project/main.py:48-50 | an entry no artifact names is left as it was |
| ProjectModel.InstallLastWins | brownie/project/main.py:48-50 | an artifact that no later artifact overrides is found under its name |
| ProjectModel.ArtifactFile | brownie/project/main.py:52 | an artifact is written to `build/contracts/<name>.json` below the project root |
| ProjectModel.ArtifactFiles | brownie/project/main.py:49-54 | one file is written per artifact, in order |
| ProjectModel.Deployable | brownie/project/main.py:59-63 | containers exist exactly for the built contracts with non-empty bytecode, each holding that artifact |
| ProjectModel.Registry.constructor | brownie/project/main.py:29 | the registry starts empty |
| ProjectModel.Project.constructor | brownie/project/main.py:97-122 | a new project has its name, root, sources and validated build, no containers, and is inactive |
| ProjectModel.Project.GetChangedContracts | brownie/project/main.py:156-164 | a raising staleness test leaves the build unchanged; otherwise the final set is evicted and the result is `ChangedSources` of it |
| ProjectModel.Project.Widen | brownie/project/main.py:158-160 | the loop builds `FinalSet` of the changed contracts |
| ProjectModel.Project.Evict | brownie/project/main.py:161-162 | the loop leaves `Evicted` of the old build |
| ProjectModel.Project.Compile | brownie/project/main.py:39-54 | a missing setting raises KeyError and a compiler error is passed on, both leaving the build unchanged; otherwise every artifact is installed in order and its file written |
| ProjectModel.Project.AddAll | brownie/project/main.py:49-54 | the loop installs every artifact and writes one file per artifact |
| ProjectModel.Project.CreateContainers | brownie/project/main.py:56-63 | the containers become `Deployable(build)` |
| ProjectModel.Project.Iter | brownie/project/main.py:68-69 | the containers come out in strictly increasing name order, each exactly once |
| ProjectModel.Project.Len | brownie/project/main.py:71-72 | the length is the number of containers |
| ProjectModel.Project.Refresh | brownie/project/main.py:131-140 | it succeeds exactly when `Reloaded` does, and raises the error `Reloaded` names otherwise; on success the build is `Reloaded`'s, the containers are those of the build and the configured version is restored; on failure nothing is installed, the build is `EvictedOnLoad` (evicted once the staleness test has run), and the containers and the files written are unchanged; on success the build is the `Recompiled` artifacts (the compiler's list) installed over `EvictedOnLoad`, and the files of exactly that list are appended to the files written, in order |
| ProjectModel.Project.Load | brownie/project/main.py:125-154 | an active project raises ProjectAlreadyLoaded; otherwise the outcome and the build follow `Reloaded`; on success the project becomes active and is appended to the registry; on failure it stays inactive and unregistered, its build is `EvictedOnLoad`, and its containers and files written are unchanged; on success the build is the `Recompiled` artifacts installed over `EvictedOnLoad`, and the files of exactly that list are appended to the files written, in order; a consistent registry stays consistent |
| ProjectModel.Project.Close | brownie/project/main.py:191-219 | an inactive project raises ProjectNotFound, or with `raises=False` does nothing; otherwise it becomes inactive, leaves the registry (ValueError if it was not there), and its path leaves `sys.path`; a consistent registry stays consistent and no longer holds it |
| ProjectModel.EvictedOnLoad | brownie/project/main.py:130-140 | the build a failed load leaves keeps a subset of the old names with unchanged artifacts, and is the old build when the version lookup raised |
| ProjectModel.Recompiled | brownie/project/main.py:39-54 | the artifacts the compiler returns in a successful load, in order; the build the load leaves is exactly these installed over the build `EvictedOnLoad` describes |
| ProjectModel.ReloadedKeys | brownie/project/main.py:156-164 | after a load the build holds exactly the artifacts that were neither evicted nor recompiled, unchanged, plus the compiled ones |
| ProjectModel.NothingStaleKeepsBuild | brownie/project/main.py:131-140 | when nothing is stale and the compiler returns nothing for no sources, a load leaves the build as it was |
| ProjectModel.ProjectName | brownie/project/main.py:353-357 | the given name is used; otherwise the derived one, which holds only letters |
| ProjectModel.CreateProject | brownie/project/main.py:97-123 | a stored file that raises, or a load that raises, leaves no project; otherwise the new project holds the filtered sources and the reloaded build, is active and registered, and its outcome and build are `InitialBuild`'s; the files it has written are those of the `Recompiled` list of its first load, in order; the files reported deleted are `Deleted` of the stored build files whether or not one raises |
| ProjectModel.InitialBuild | brownie/project/main.py:108-123 | a stored file that raises makes the whole creation raise the same error |
| ProjectModel.LoadProject | brownie/project/main.py:335-366 | a missing project raises ProjectNotFound and a name already loaded raises ProjectAlreadyLoaded, both changing nothing and deleting no file; for a found project with a free name the outcome is `InitialBuild`'s, the path is on `sys.path` whether or not creation raises, and the files deleted are `Deleted` of the stored build files; a loaded project has the filtered sources and `InitialBuild`'s build and is registered under its name with its path on `sys.path`; unique names stay unique |
| ProjectModel.Register | brownie/project/main.py:358-366 | a name already loaded raises ProjectAlreadyLoaded, changes nothing and deletes no file; for a free name the outcome is `InitialBuild`'s, the path is on `sys.path` whether or not creation raises, and the files deleted are `Deleted` of the stored build files; a created project carries the root, name, filtered sources and `InitialBuild`'s build, is active and appended to the registry, and its path is on `sys.path`; a consistent registry stays consistent and unique names stay unique |
| ProjectModel.GetLoadedProjects | brownie/project/main.py:245-247 | the registry's projects in order, as a value that later loads and closes do not change |

## Left out

- File I/O:
  - globbing, reading, JSON and YAML parsing, `json.dump`, `unlink` and `mkdir` are not performed;
  - the globbed and parsed files, a "source exists" test and the compiler settings read from the project's configuration file are inputs (`Disk`);
  - the files written and deleted are outputs.
- `Path.resolve()`: every path is taken as already absolute and resolved.
- The compiler, `set_solc_version` and `get_hash` are foreign calls. They are function parameters (`Compiler`, `Resolver`, `Hasher`).
- `Sources`, `Build` and `BUILD_KEYS` are not part of this model:
  - sources are maps, and `Sources(...)` is a parameter (`Toolchain.index`);
  - the build is a map from contract name to artifact;
  - a new project's build starts empty.
- `ContractContainer` is replaced by the artifact it wraps. Its `setattr` on the project is left out.
- `__getitem__`, `__contains__`, `dict` and `keys` of a project are direct reads of the `containers` map and have no member of their own.
- The namespace work of `load` and `close` is left out, because it only touches interpreter state:
  - `sys.modules`, `__all__`, `__console_dir__` and `__main__`;
  - `_update_and_register`.
- `TempProject`, `compile_source`, `new`, `from_brownie_mix` and `_create_folders` are left out: scaffolding, downloads and directory creation. `_new_checks` is modelled.
- `Project.load_config`, `_load_project_config`, `_load_default_config`, `_load_project_compiler_config` and the `_Singleton` metaclass are left out: file reading around the modelled `_recursive_update`.
- Printed warnings are not printed:
  - `_recursive_update` returns its warnings as a set of key paths;
  - the `reverting_tx_gas_limit` warning is not modelled.
- ConfigMerge.RecursiveUpdate: nested ConfigDicts are values, so aliasing between them is not captured. On failure the function returns the set of exceptions the failing keys would raise, not which one Python raises first, nor the partially updated dict.
- Configuration leaves are None, bool, int and str (`ConfigValues.Scalar`). YAML floats and lists cannot be expressed. The compiler settings compared for staleness (`version`, `optimize`, `runs`, `evm_version`, `minify_source`) are all of these kinds.
- ProjectHelpers.DefaultName: `str.title`, `str.lower` and `str.isalpha` are modelled for ASCII letters only.
- ProjectModel.Project.Load: after a staleness test raises, the configuration keeps the resolved `version`, as in the source. The model records this in `compilerConfig` but does not state it in the contract.
- ProjectModel.Project.Close: the registry is the only place the project is removed from. The namespaces are left out, as above.

## Findings

| source | as written | input that shows it | evidently intended | confidence | as-written member | corrected member |
|---|---|---|---|---|---|---|
| brownie/project/main.py:100 | `"/_" in path.as_posix()` tests the absolute path, so a "/_" anywhere above the project root skips every source file | project root `/home/_me/proj`, file `contracts/Token.sol` | skip only files whose path below the project root has a component starting with "_" | not executed | ProjectHelpers.SkippedAsWritten | ProjectHelpers.Skipped |
| brownie/project/main.py:217 | `sys.path.remove(self._project_path)` removes a `Path` object, but `_add_to_sys_path` inserted `str(project_path)`; the ValueError is swallowed and the entry stays | load a project (its path string is added), then close it | remove the string `_add_to_sys_path` inserted | not executed | ProjectHelpers.CloseSysPathAsWritten | ProjectHelpers.CloseSysPath |
| brownie/project/main.py:306 | `str(CONFIG["brownie_folder"]) in str(project_path)` is a substring test, so any path whose string contains the installation path is refused | installation `/opt/brownie`, new project `/opt/brownie-mix/token` | refuse only the installation folder and paths below it | not executed | ProjectHelpers.NewChecksAsWritten | ProjectHelpers.NewChecks |

Each row has a lemma that exhibits the discrepancy and a lemma about the corrected member:

- **Source filter.**
  - `ProjectHelpers.SkipFilterCounterexample` exhibits the discrepancy.
  - `ProjectHelpers.SkipFiltersAgree` shows the two filters agree when the root holds no "/_".
  - `CollectSources` and `SourceMapKeys` use the corrected filter.
- **`sys.path` on close.**
  - `ProjectHelpers.CloseAsWrittenKeepsPath` exhibits the discrepancy.
  - `ProjectHelpers.AddThenCloseRestores` proves the corrected removal.
  - `SysPath.Remove` and `Project.Close` use the corrected removal.
- **Installation-folder check.**
  - `ProjectHelpers.NewChecksCounterexample` exhibits the discrepancy.
  - `ProjectHelpers.AsWrittenRefusesMore` shows the as-written check refuses everything the intended one does.
  - `ProjectHelpers.NewChecksExactly` characterises the corrected check.
