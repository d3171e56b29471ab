/**
 * Merging a project's configuration into the defaults, activating a network
 * and recording command-line arguments (brownie/_config.py,
 * `_recursive_update`, `_modify_network_config`, `_update_argv_from_docopt`).
 */
module ConfigMerge {
  import opened Wrappers
  import opened ConfigValues

  /** Keys whose dict values replace the default wholesale instead of being merged. */
  const REPLACE: set<string> := {"active_network", "networks"}

  /** Keys under which a missing project setting is not warned about. */
  const IGNORE: set<string> := {"active_network", "brownie_folder"}

  /** Some key on the path is in IGNORE (`set(base + [k]).intersection(IGNORE)`). */
  predicate Ignored(path: seq<string>) {
    exists i | 0 <= i < |path| :: path[i] in IGNORE
  }

  /** A merged value and the key paths warned about ("'a.b' not found in the config file"). */
  datatype Merged = Merged(value: Value, warnings: set<seq<string>>)

  /**
   * The value `original[k] = v` leaves under `k`: a ConfigDict goes through
   * `__setitem__` (it wraps plain dicts and obeys its lock), a plain dict stores `v`.
   */
  function Assign(original: Value, k: string, v: Value): (r: Result<Value, set<PyException>>)
    requires original.IsDict()
    ensures r.Failure? <==> original.Config? && original.locked && k !in original.items
    ensures r.Failure? ==> r.error == {KeyError}
    ensures r.Success? ==> Forget(r.value) == Forget(v)
  {
    if original.Plain? then Success(v)
    else
      var u := Store(original.items, original.locked, k, v);
      if u.outcome.Fail? then Failure({KeyError}) else Success(u.items[k])
  }

  /** Every path in `ws` extends `base` by at least one key and touches no IGNORE key. */
  predicate WarningsUnder(ws: set<seq<string>>, base: seq<string>) {
    forall w | w in ws :: |w| > |base| && w[..|base|] == base && !Ignored(w)
  }

  /**
   * One key `k` of `incoming`, with value `nv`: a dict under a REPLACE key is
   * assigned, a dict under a key `original` holds is merged into the value
   * there, anything else is assigned.
   */
  function MergeKey(original: Value, k: string, nv: Value, base: seq<string>): (r: Result<Merged, set<PyException>>)
    requires original.IsDict()
    ensures r.Success? ==> WarningsUnder(r.value.warnings, base)
    ensures r.Success? ==> forall w | w in r.value.warnings :: |w| > |base| + 1 && w[|base|] == k
    decreases nv, 2
  {
    if nv.Plain? && k in REPLACE then
      var a := Assign(original, k, nv);
      if a.Failure? then Failure(a.error) else Success(Merged(a.value, {}))
    else if nv.Plain? && k in original.items then
      var r := RecursiveUpdate(original.items[k], nv, base + [k]);
      assert r.Success? ==> WarningsUnder(r.value.warnings, base) by {
        if r.Success? {
          forall w | w in r.value.warnings ensures w[..|base|] == base {
            assert w[..|base|] == w[..|base| + 1][..|base|] == (base + [k])[..|base|];
          }
        }
      }
      assert r.Success? ==> forall w | w in r.value.warnings :: |w| > |base| + 1 && w[|base|] == k by {
        if r.Success? {
          forall w | w in r.value.warnings ensures w[|base|] == k {
            assert w[|base|] == w[..|base| + 1][|base|] == (base + [k])[|base|];
          }
        }
      }
      r
    else
      var a := Assign(original, k, nv);
      if a.Failure? then Failure(a.error) else Success(Merged(a.value, {}))
  }

  /** The exceptions raised by the keys whose merge failed. */
  function Raised(results: map<string, Result<Merged, set<PyException>>>): set<PyException> {
    set k, e | k in results && results[k].Failure? && e in results[k].error :: e
  }

  /** The warnings of the keys merged recursively. */
  function NestedWarnings(results: map<string, Result<Merged, set<PyException>>>, base: seq<string>): (ws: set<seq<string>>)
    requires forall k | k in results :: results[k].Success? && WarningsUnder(results[k].value.warnings, base)
    ensures WarningsUnder(ws, base)
  {
    var ws := set k, w | k in results && w in results[k].value.warnings :: w;
    assert WarningsUnder(ws, base) by {
      forall w | w in ws ensures |w| > |base| && w[..|base|] == base && !Ignored(w) {
        var k :| k in results && w in results[k].value.warnings;
        assert results[k].Success? && WarningsUnder(results[k].value.warnings, base);
      }
    }
    ws
  }

  /** "'base.k' not found in the config file" for each key of `original` that `incoming` lacks, unless ignored. */
  function OwnWarnings(original: Value, incoming: Value, base: seq<string>): (ws: set<seq<string>>)
    requires original.IsDict() && incoming.IsDict()
    ensures WarningsUnder(ws, base)
    ensures forall k | k in original.items && k !in incoming.items && !Ignored(base + [k]) :: base + [k] in ws
  {
    var ws := set k | k in original.items && k !in incoming.items && !Ignored(base + [k]) :: base + [k];
    assert forall w | w in ws :: w[..|base|] == base;
    ws
  }

  /** The entries after the merge: the merged value under each key of `incoming`, the rest as they were. */
  function MergedItems(original: Value, incoming: Value, results: map<string, Result<Merged, set<PyException>>>): (m: map<string, Value>)
    requires original.IsDict() && incoming.IsDict()
    requires results.Keys == incoming.items.Keys && forall k | k in results :: results[k].Success?
    ensures m.Keys == original.items.Keys + incoming.items.Keys
    ensures forall k | k in original.items && k !in incoming.items :: m[k] == original.items[k]
    ensures forall k | k in incoming.items :: m[k] == results[k].value.value
  {
    map k | k in original.items.Keys + incoming.items.Keys ::
      if k in incoming.items then results[k].value.value else original.items[k]
  }

  /**
   * `_recursive_update(original, incoming, base)`: every key of `incoming` is merged
   * into `original`; then every key of `original` that `incoming` lacks is warned
   * about, unless its path touches IGNORE. A non-dict `original` raises
   * TypeError (a str with nothing to merge is iterated by character instead).
   * On failure the result holds the exceptions the failing keys raise.
   */
  function RecursiveUpdate(original: Value, incoming: Value, base: seq<string>): (r: Result<Merged, set<PyException>>)
    requires incoming.IsDict()
    ensures r.Success? && original.IsDict() ==>
      && r.value.value.IsDict()
      && r.value.value.Plain? == original.Plain?
      && (original.Config? ==> r.value.value.locked == original.locked)
      && r.value.value.items.Keys == original.items.Keys + incoming.items.Keys
      && forall k | k in original.items && k !in incoming.items :: r.value.value.items[k] == original.items[k]
    ensures r.Success? ==> WarningsUnder(r.value.warnings, base)
    decreases incoming, 1
  {
    if !original.IsDict() then
      if original.Atom? && original.leaf.Str? && incoming.items == map[] then
        var s := original.leaf.s;
        var own := set c | c in s && !Ignored(base + [[c]]) :: base + [[c]];
        assert forall w | w in own :: w[..|base|] == base;
        Success(Merged(original, own))
      else Failure({TypeError})
    else
      var results := map k | k in incoming.items :: MergeKey(original, k, incoming.items[k], base);
      if exists k | k in results :: results[k].Failure? then
        Failure(Raised(results))
      else
        var items := MergedItems(original, incoming, results);
        var ws := OwnWarnings(original, incoming, base) + NestedWarnings(results, base);
        Success(Merged(if original.Plain? then Plain(items) else Config(items, original.locked), ws))
  }

  /** Every key of `incoming` ends up in the result, a REPLACE key's dict wholesale, another key's dict merged. */
  lemma MergeKeyCases(original: Value, incoming: Value, base: seq<string>, k: string)
    requires original.IsDict() && incoming.IsDict() && k in incoming.items
    requires RecursiveUpdate(original, incoming, base).Success?
    ensures var m := RecursiveUpdate(original, incoming, base).value.value;
      && k in m.items
      && (incoming.items[k].Plain? && k in REPLACE ==>
            Forget(m.items[k]) == Forget(incoming.items[k]) && (original.Config? ==> m.items[k].Config?))
      && (incoming.items[k].Plain? && k !in REPLACE && k in original.items ==>
            RecursiveUpdate(original.items[k], incoming.items[k], base + [k]).Success?
            && m.items[k] == RecursiveUpdate(original.items[k], incoming.items[k], base + [k]).value.value)
      && (incoming.items[k].Plain? && k !in REPLACE && k !in original.items ==>
            Forget(m.items[k]) == Forget(incoming.items[k]) && (original.Config? ==> m.items[k].Config?))
      && (!incoming.items[k].Plain? ==> Forget(m.items[k]) == Forget(incoming.items[k]))
  {
    var results := map k | k in incoming.items :: MergeKey(original, k, incoming.items[k], base);
    assert results[k].Success?;
  }

  /** A key of `original` that `incoming` lacks is warned about unless its path touches IGNORE. */
  lemma MissingKeysWarned(original: Value, incoming: Value, base: seq<string>, k: string)
    requires original.IsDict() && incoming.IsDict()
    requires RecursiveUpdate(original, incoming, base).Success?
    requires k in original.items && k !in incoming.items && !Ignored(base + [k])
    ensures base + [k] in RecursiveUpdate(original, incoming, base).value.warnings
  {
  }

  /** Conversely, every warning one level below `base` names a key of `original` that `incoming` lacks. */
  lemma WarnedKeysAreMissing(original: Value, incoming: Value, base: seq<string>)
    requires original.IsDict() && incoming.IsDict()
    requires RecursiveUpdate(original, incoming, base).Success?
    ensures forall w | w in RecursiveUpdate(original, incoming, base).value.warnings && |w| == |base| + 1 ::
      w == base + [w[|base|]] && w[|base|] in original.items && w[|base|] !in incoming.items
  {
    var results := map k | k in incoming.items :: MergeKey(original, k, incoming.items[k], base);
    var ws := RecursiveUpdate(original, incoming, base).value.warnings;
    assert ws == OwnWarnings(original, incoming, base) + NestedWarnings(results, base);
  }

  /** A locked ConfigDict refuses a new key, so the merge raises KeyError. */
  lemma LockedRefusesNewKey(original: Value, incoming: Value, base: seq<string>, k: string)
    requires original.Config? && original.locked && incoming.IsDict()
    requires k in incoming.items && k !in original.items
    ensures RecursiveUpdate(original, incoming, base).Failure?
    ensures KeyError in RecursiveUpdate(original, incoming, base).error
  {
    var results := map k | k in incoming.items :: MergeKey(original, k, incoming.items[k], base);
    assert results[k] == Failure({KeyError});
    assert KeyError in Raised(results);
  }

  /** No ConfigDict anywhere inside is locked. */
  predicate DeepUnlocked(v: Value) {
    match v
    case Atom(_) => true
    case Plain(m) => forall k | k in m :: DeepUnlocked(m[k])
    case Config(m, l) => !l && forall k | k in m :: DeepUnlocked(m[k])
  }

  /** Wherever `incoming` holds a dict to merge, `original` holds a dict too. */
  predicate ShapesAgree(original: Value, incoming: Value)
    requires incoming.IsDict()
    decreases incoming
  {
    original.IsDict() &&
    forall k | k in incoming.items && incoming.items[k].Plain? && k !in REPLACE && k in original.items ::
      ShapesAgree(original.items[k], incoming.items[k])
  }

  /** Merging into an unlocked configuration of matching shape always succeeds. */
  lemma {:induction false} UnlockedMergeSucceeds(original: Value, incoming: Value, base: seq<string>)
    requires incoming.IsDict()
    requires DeepUnlocked(original) && ShapesAgree(original, incoming)
    ensures RecursiveUpdate(original, incoming, base).Success?
    decreases incoming
  {
    var results := map k | k in incoming.items :: MergeKey(original, k, incoming.items[k], base);
    forall k | k in results ensures results[k].Success? {
      var nv := incoming.items[k];
      if nv.Plain? && k !in REPLACE && k in original.items {
        UnlockedMergeSucceeds(original.items[k], nv, base + [k]);
      }
    }
  }

  /** Python truthiness of a configuration value (`bool(x)`). */
  predicate ValueTruthy(v: Value) {
    match v
    case Atom(x) => Truthy(x)
    case Plain(m) => |m| > 0
    case Config(m, _) => |m| > 0
  }

  /** `d[key]` on a configuration value. */
  function Lookup(d: Value, key: Value): (r: Result<Value, PyException>)
    ensures r.Success? <==> d.IsDict() && key.Atom? && key.leaf.Str? && key.leaf.s in d.items
    ensures r.Success? ==> r.value == d.items[key.leaf.s]
    ensures r.Failure? ==> r.error == (if d.IsDict() && key.Atom? then KeyError else TypeError)
  {
    if !d.IsDict() || key.IsDict() then Failure(TypeError)
    else if key.leaf.Str? && key.leaf.s in d.items then Success(d.items[key.leaf.s])
    else Failure(KeyError)
  }

  function Key(s: string): Value {
    Atom(Str(s))
  }

  /** The network chosen, the default settings and the network's own entries. */
  datatype Selection = Selection(name: Value, settings: map<string, Value>, own: map<string, Value>)

  /**
   * `network` (or `network.default` when it is falsy), then `network.settings`
   * and `network.networks[network]`, in the order the source evaluates them;
   * `{**x}` of a non-mapping raises TypeError.
   */
  function SelectNetwork(config: map<string, Value>, network: Value): Result<Selection, PyException> {
    var section := Lookup(Config(config, false), Key("network"));
    if section.Failure? then Failure(section.error)
    else
      var chosenName := if ValueTruthy(network) then Success(network) else Lookup(section.value, Key("default"));
      if chosenName.Failure? then Failure(chosenName.error)
      else
        var settings := Lookup(section.value, Key("settings"));
        if settings.Failure? then Failure(settings.error)
        else if !settings.value.IsDict() then Failure(TypeError)
        else
          var networks := Lookup(section.value, Key("networks"));
          if networks.Failure? then Failure(networks.error)
          else
            var chosen := Lookup(networks.value, chosenName.value);
            if chosen.Failure? then Failure(chosen.error)
            else if !chosen.value.IsDict() then Failure(TypeError)
            else Success(Selection(chosenName.value, settings.value.items, chosen.value.items))
  }

  /** The new `active_network`: the settings overlaid by the network's own entries, and its `name`. */
  function Overlay(s: Selection): (v: Value)
    ensures v.Config? && !v.locked
    ensures v.items.Keys == s.settings.Keys + s.own.Keys + {"name"}
    ensures Forget(v.items["name"]) == Forget(s.name)
    ensures forall k | k in v.items && k != "name" ::
      Forget(v.items[k]) == Forget(if k in s.own then s.own[k] else s.settings[k])
  {
    var m := s.settings + s.own;
    var w := Wrap(Plain(m));
    assert forall k | k in m :: Forget(w.items[k]) == Forget(m[k]) by {
      assert Forget(w).items == Forget(Plain(m)).items;
      forall k | k in m ensures Forget(w.items[k]) == Forget(m[k]) {
        assert Forget(w).items[k] == Forget(Plain(m)).items[k];
      }
    }
    Config(w.items["name" := Wrap(s.name)], false)
  }

  /** `active_network.update(pytest)` on the unlocked `active_network`: pytest's entries win. */
  function WithPytest(active: Value, pytest: map<string, Value>): (v: Value)
    requires active.Config?
    ensures v.Config? && v.locked == active.locked
    ensures v.items.Keys == active.items.Keys + pytest.Keys
    ensures forall k | k in v.items ::
      Forget(v.items[k]) == Forget(if k in pytest then pytest[k] else active.items[k])
  {
    Config(active.items + map k | k in pytest :: Wrap(pytest[k]), active.locked)
  }

  /** What ends up stored as `active_network` (if anything), and what the call returns or raises. */
  datatype Activation = Activation(stored: Option<Value>, result: Result<Value, PyException>)

  /**
   * The body of `_modify_network_config` on the unlocked entries of CONFIG.
   * `CONFIG["pytest"]` is read from `config`: storing `active_network` does
   * not change the `pytest` entry.
   */
  function Activate(config: map<string, Value>, network: Value, cli: Value): (a: Activation)
    ensures a.result.Success? ==> a.stored == Some(a.result.value)
  {
    var sel := SelectNetwork(config, network);
    if sel.Failure? then Activation(None, Failure(sel.error))
    else
      var active := Overlay(sel.value);
      if cli != Key("test") then Activation(Some(active), Success(active))
      else
        var pytest := Lookup(Config(config, false), Key("pytest"));
        if pytest.Failure? then Activation(Some(active), Failure(pytest.error))
        else if !pytest.value.IsDict() then Activation(Some(active), Failure(AttributeError))
        else
          var tested := WithPytest(active, pytest.value.items);
          Activation(Some(tested),
            if "reverting_tx_gas_limit" in tested.items then Success(tested) else Failure(KeyError))
  }

  /** The configuration entries when an exit is reached, and what the call returns or raises. */
  datatype NetworkChange = NetworkChange(items: map<string, Value>, result: Result<Value, PyException>)

  /** The entries of CONFIG after activating a network: only `active_network` ever changes. */
  function ActivateNetwork(config: map<string, Value>, network: Value, cli: Value): (c: NetworkChange)
    ensures config.Keys <= c.items.Keys <= config.Keys + {"active_network"}
    ensures forall k | k in config && k != "active_network" :: c.items[k] == config[k]
    ensures c.result.Success? ==> c.items == config["active_network" := c.result.value]
  {
    var a := Activate(config, network, cli);
    NetworkChange(if a.stored.Some? then config["active_network" := a.stored.value] else config, a.result)
  }

  /** The network section, its settings and the networks it defines, when they are dicts. */
  predicate WellFormedNetworks(config: map<string, Value>) {
    && "network" in config && config["network"].IsDict()
    && "settings" in config["network"].items && config["network"].items["settings"].IsDict()
    && "networks" in config["network"].items && config["network"].items["networks"].IsDict()
  }

  /** A network `net` defined as a dict in the configuration. */
  predicate Defines(config: map<string, Value>, net: string)
    requires WellFormedNetworks(config)
  {
    var nets := config["network"].items["networks"].items;
    net in nets && nets[net].IsDict()
  }

  /** The selection for a defined network. */
  function SelectionOf(config: map<string, Value>, net: string): Selection
    requires WellFormedNetworks(config) && Defines(config, net)
  {
    Selection(Key(net), config["network"].items["settings"].items,
      config["network"].items["networks"].items[net].items)
  }

  /**
   * Outside test mode, activating a defined network stores and returns the
   * network's settings overlaid on the defaults, named after the network.
   */
  lemma ActivateOverlay(config: map<string, Value>, net: string, cli: Value)
    requires WellFormedNetworks(config) && Defines(config, net) && cli != Key("test") && net != ""
    ensures ActivateNetwork(config, Key(net), cli).result == Success(Overlay(SelectionOf(config, net)))
  {
    assert SelectNetwork(config, Key(net)) == Success(SelectionOf(config, net));
  }

  /**
   * In test mode the `pytest` settings are laid over the network's, and the
   * call succeeds exactly when `reverting_tx_gas_limit` is then present.
   */
  lemma ActivateForTests(config: map<string, Value>, net: string)
    requires WellFormedNetworks(config) && Defines(config, net) && net != ""
    requires "pytest" in config && config["pytest"].IsDict()
    ensures var c := ActivateNetwork(config, Key(net), Key("test"));
      var tested := WithPytest(Overlay(SelectionOf(config, net)), config["pytest"].items);
      && c.items == config["active_network" := tested]
      && (c.result.Success? <==> "reverting_tx_gas_limit" in tested.items)
      && (c.result.Failure? ==> c.result.error == KeyError)
  {
    assert SelectNetwork(config, Key(net)) == Success(SelectionOf(config, net));
  }

  /** A falsy network argument means the configured `network.default`. */
  lemma FalsyNetworkMeansDefault(config: map<string, Value>, network: Value, cli: Value)
    requires !ValueTruthy(network)
    requires "network" in config && config["network"].IsDict() && "default" in config["network"].items
    ensures ActivateNetwork(config, network, cli) ==
            ActivateNetwork(config, config["network"].items["default"], cli)
  {
    assert SelectNetwork(config, network) == SelectNetwork(config, config["network"].items["default"]);
  }

  /** A network the configuration does not define raises KeyError and changes nothing. */
  lemma UndefinedNetworkRaises(config: map<string, Value>, net: string, cli: Value)
    requires WellFormedNetworks(config) && net != ""
    requires net !in config["network"].items["networks"].items
    ensures ActivateNetwork(config, Key(net), cli) == NetworkChange(config, Failure(KeyError))
  {
    assert SelectNetwork(config, Key(net)) == Failure(KeyError);
  }

  /**
   * `_modify_network_config`: unlock CONFIG, activate the network, and lock
   * CONFIG again on every way out (the `finally`). The dict returned is the
   * stored `active_network`, locked with the rest. `ARGV["cli"]` is read once
   * the network's entries are stored, which inserts a missing "cli" key.
   */
  method ModifyNetworkConfig(config: ConfigDict, network: Value, argv: Argv) returns (r: Result<Value, PyException>)
    modifies config, argv
    ensures config.locked && LocksAre(config.View(), true)
    ensures var cli := if "cli" in old(argv.entries) then old(argv.entries)["cli"] else Atom(Null);
      var c := ActivateNetwork(SetLocks(old(config.View()), false).items, network, cli);
      && config.View() == SetLocks(Config(c.items, false), true)
      && r == (if c.result.Success? then Success(SetLocks(c.result.value, true)) else Failure(c.result.error))
    ensures argv.entries ==
      if SelectNetwork(SetLocks(old(config.View()), false).items, network).Success? && "cli" !in old(argv.entries)
      then old(argv.entries)["cli" := Atom(Null)] else old(argv.entries)
  {
    config.Unlock();
    var cli := Atom(Null);
    if SelectNetwork(config.items, network).Success? {
      cli := argv.Get("cli");
    }
    var c := ActivateNetwork(config.items, network, cli);
    config.items := c.items;
    config.Lock();
    if c.result.Success? {
      r := Success(SetLocks(c.result.value, true));
    } else {
      r := Failure(c.result.error);
    }
  }

  /** `str.lstrip("-")`. */
  function LStripDashes(s: string): (r: string)
    ensures r == [] || r[0] != '-'
  {
    if s != [] && s[0] == '-' then LStripDashes(s[1..]) else s
  }

  /** Stripping removes a run of dashes from the front and nothing else. */
  lemma {:induction false} LStripDashesRemovesLeadingRun(s: string)
    ensures |LStripDashes(s)| <= |s| && LStripDashes(s) == s[|s| - |LStripDashes(s)|..]
    ensures forall i :: 0 <= i < |s| - |LStripDashes(s)| ==> s[i] == '-'
  {
    if s != [] && s[0] == '-' {
      LStripDashesRemovesLeadingRun(s[1..]);
      assert s[1..][|s| - 1 - |LStripDashes(s)|..] == s[|s| - |LStripDashes(s)|..];
    }
  }

  /** No later pair of `args` than the `i`-th has the same key once dashes are stripped. */
  predicate LastWithKey(args: seq<(string, Value)>, i: int)
    requires 0 <= i < |args|
  {
    forall j :: i < j < |args| ==> LStripDashes(args[j].0) != LStripDashes(args[i].0)
  }

  /** `dict((k.lstrip("-"), v) for k, v in args.items())`, built pair by pair. */
  function Normalized(args: seq<(string, Value)>): map<string, Value> {
    if args == [] then map[]
    else Normalized(args[..|args| - 1])[LStripDashes(args[|args| - 1].0) := args[|args| - 1].1]
  }

  /** The argument names with their leading dashes stripped. */
  function StrippedNames(args: seq<(string, Value)>): set<string> {
    set i | 0 <= i < |args| :: LStripDashes(args[i].0)
  }

  /** The keys are exactly the argument names with their leading dashes stripped. */
  lemma {:induction false} NormalizedKeys(args: seq<(string, Value)>)
    ensures Normalized(args).Keys == StrippedNames(args)
  {
    if args != [] {
      var n := |args| - 1;
      var front := args[..n];
      NormalizedKeys(front);
      assert Normalized(args).Keys == Normalized(front).Keys + {LStripDashes(args[n].0)};
      assert StrippedNames(args) == StrippedNames(front) + {LStripDashes(args[n].0)} by {
        forall k | k in StrippedNames(args) ensures k in StrippedNames(front) + {LStripDashes(args[n].0)} {
          var i :| 0 <= i < |args| && LStripDashes(args[i].0) == k;
          if i < n {
            assert front[i] == args[i];
          }
        }
        forall k | k in StrippedNames(front) ensures k in StrippedNames(args) {
          var i :| 0 <= i < |front| && LStripDashes(front[i].0) == k;
          assert front[i] == args[i];
        }
      }
    }
  }

  /** A key holds the value of the last argument that strips to it. */
  lemma {:induction false} NormalizedLastWins(args: seq<(string, Value)>, i: int)
    requires 0 <= i < |args| && LastWithKey(args, i)
    ensures LStripDashes(args[i].0) in Normalized(args)
    ensures Normalized(args)[LStripDashes(args[i].0)] == args[i].1
  {
    var n := |args| - 1;
    if i < n {
      var front := args[..n];
      assert LStripDashes(args[i].0) != LStripDashes(args[n].0);
      assert front[i] == args[i];
      assert LastWithKey(front, i) by {
        forall j | i < j < |front| ensures LStripDashes(front[j].0) != LStripDashes(front[i].0) {
          assert front[j] == args[j];
        }
      }
      NormalizedLastWins(front, i);
    }
  }

  /** ARGV: a `defaultdict` whose missing keys read as None. */
  class Argv {
    var entries: map<string, Value>

    constructor ()
      ensures entries == map[]
    {
      entries := map[];
    }

    /** `ARGV[key]`: a missing key reads as None and, as in any `defaultdict`, is stored with that value. */
    method Get(key: string) returns (v: Value)
      modifies this
      ensures key in old(entries) ==> v == old(entries)[key] && entries == old(entries)
      ensures key !in old(entries) ==> v == Atom(Null) && entries == old(entries)[key := Atom(Null)]
    {
      if key in entries {
        v := entries[key];
      } else {
        v := Atom(Null);
        entries := entries[key := v];
      }
    }

    /** `_update_argv_from_docopt`: store every argument under its key without leading dashes. */
    method UpdateFromDocopt(args: seq<(string, Value)>)
      modifies this
      ensures entries == old(entries) + Normalized(args)
    {
      var d: map<string, Value> := map[];
      var i := 0;
      while i < |args|
        invariant 0 <= i <= |args|
        invariant d == Normalized(args[..i])
      {
        assert args[..i + 1][..i] == args[..i];
        d := d[LStripDashes(args[i].0) := args[i].1];
        i := i + 1;
      }
      assert args[..|args|] == args;
      entries := entries + d;
    }
  }

  /** No key ARGV receives starts with a dash. */
  lemma NormalizedKeysHaveNoDash(args: seq<(string, Value)>)
    ensures forall k | k in Normalized(args) :: k == [] || k[0] != '-'
  {
  }
}
