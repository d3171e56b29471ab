/**
 * What `Project._get_changed_contracts` (brownie/project/main.py) computes:
 * the stale contracts, widened by one step of reverse dependencies, and the
 * source files that must be compiled again.
 */
module ChangeSet {
  import opened Wrappers
  import opened Staleness

  /**
   * `[i for i in names if _compare_build_json(i)]`: the stale names in list
   * order; the first comparison that raises ends the comprehension.
   */
  function StaleList(src: Sources, build: Build, config: CompilerConfig, hash: Hasher, names: seq<string>): (r: Result<seq<string>, PyException>)
    ensures r.Success? ==> forall n :: n in r.value <==> n in names && IsStale(src, build, config, hash, n) == Success(true)
    ensures r.Success? <==> forall n | n in names :: IsStale(src, build, config, hash, n).Success?
  {
    if names == [] then Success([])
    else
      var front := names[..|names| - 1];
      var last := names[|names| - 1];
      assert names == front + [last];
      var prev := StaleList(src, build, config, hash, front);
      if prev.Failure? then prev
      else
        var h := IsStale(src, build, config, hash, last);
        if h.Failure? then Failure(h.error)
        else if h.value then Success(prev.value + [last])
        else prev
  }

  /** `Build.get_dependents(name)`: every built contract that records `name` as a dependency. */
  function Dependents(build: Build, name: string): (d: set<string>)
    ensures forall n :: n in d <==> n in build && name in build[n].dependencies
  {
    set n | n in build && name in build[n].dependencies
  }

  /** `final`: the changed names, plus the dependents of each of them (one step, not a closure). */
  function FinalSet(build: Build, changed: seq<string>): (f: set<string>)
    ensures forall c | c in changed :: c in f && Dependents(build, c) <= f
    ensures forall n | n in f :: n in changed || exists c | c in changed :: n in Dependents(build, c)
  {
    if changed == [] then {}
    else
      var front := changed[..|changed| - 1];
      var last := changed[|changed| - 1];
      assert changed == front + [last];
      FinalSet(build, front) + {last} + Dependents(build, last)
  }

  /** The build once every member of `final` is removed. */
  function Evicted(build: Build, final: set<string>): (b: Build)
    ensures b.Keys == build.Keys - final
    ensures forall k | k in b :: b[k] == build[k]
  {
    map k | k in build && k !in final :: build[k]
  }

  /**
   * `dict((p, Sources.get(p)) for p in set(get_source_path(i) for i in final))`:
   * each source file defining a member of `final`, once, with its text. A
   * member no source file defines raises KeyError.
   */
  function ChangedSources(src: Sources, final: set<string>): (r: Result<map<string, string>, PyException>)
    ensures r.Success? <==>
      (forall i | i in final :: i in src.contractPath && GetSource(src, src.contractPath[i]).Some?)
    ensures r.Success? ==>
      (forall p :: p in r.value <==> exists i | i in final :: src.contractPath[i] == p)
    ensures r.Success? ==> forall p | p in r.value :: Some(r.value[p]) == GetSource(src, p)
    ensures r.Failure? ==> r.error == KeyError
  {
    if exists i | i in final :: i !in src.contractPath then Failure(KeyError)
    else
      var paths := set i | i in final :: src.contractPath[i];
      if exists p | p in paths :: GetSource(src, p).None? then Failure(KeyError)
      else Success(map p | p in paths :: GetSource(src, p).value)
  }

  /** Every stale contract, and every contract that records one as a dependency, is recompiled. */
  lemma StaleAndDependentsInFinal(build: Build, changed: seq<string>, c: string, n: string)
    requires c in changed && n in build && c in build[n].dependencies
    ensures c in FinalSet(build, changed) && n in FinalSet(build, changed)
  {
  }

  /**
   * Only one step of dependents is taken: with B depending on A and C on B,
   * a change to A recompiles B but not C.
   */
  lemma OneStepOnly()
    ensures var build := map["B" := Artifact("B", "", [], "", "B.sol", {"A"}),
                             "C" := Artifact("C", "", [], "", "C.sol", {"B"})];
      FinalSet(build, ["A"]) == {"A", "B"}
  {
    var build := map["B" := Artifact("B", "", [], "", "B.sol", {"A"}),
                     "C" := Artifact("C", "", [], "", "C.sol", {"B"})];
    assert ["A"][..0] == [];
    assert Dependents(build, "A") == {"B"} by {
      assert "C" !in Dependents(build, "A");
    }
  }

  /** Every artifact records the dependencies of its own dependencies. */
  predicate TransitivelyRecorded(build: Build) {
    forall a, b | a in build && b in build && b in build[a].dependencies ::
      build[b].dependencies <= build[a].dependencies
  }

  /**
   * When every artifact records its dependencies transitively, the one step
   * is enough: the dependents of every member of `final` are in `final`.
   */
  lemma OneStepClosedWhenTransitive(build: Build, changed: seq<string>, n: string, m: string)
    requires TransitivelyRecorded(build)
    requires n in FinalSet(build, changed) && m in Dependents(build, n)
    ensures m in FinalSet(build, changed)
  {
    if n !in changed {
      var c :| c in changed && n in Dependents(build, c);
      assert build[n].dependencies <= build[m].dependencies;
      assert m in Dependents(build, c);
    }
  }

  /** When nothing is stale nothing is recompiled, and the build keeps every artifact. */
  lemma {:induction false} NoEditsNothingRecompiled(src: Sources, build: Build, config: CompilerConfig, hash: Hasher, names: seq<string>)
    requires forall n | n in names :: IsStale(src, build, config, hash, n) == Success(false)
    ensures StaleList(src, build, config, hash, names) == Success([])
    ensures Evicted(build, FinalSet(build, [])) == build
    ensures ChangedSources(src, FinalSet(build, [])) == Success(map[])
  {
    if names != [] {
      var front := names[..|names| - 1];
      assert forall n | n in front :: n in names;
      NoEditsNothingRecompiled(src, build, config, hash, front);
    }
  }
}
