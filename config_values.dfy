/**
 * Configuration values and the lockable `ConfigDict` of brownie/_config.py.
 *
 * A `ConfigDict` is a dict that, once locked, refuses assignments to keys it
 * does not already hold. The top-level dictionary is the class `ConfigDict`;
 * dictionaries nested inside it are values (`Value.Config`), each with its own
 * lock flag.
 */
module ConfigValues {
  import opened Wrappers

  /** A configuration leaf: None, a bool, an int or a str. */
  datatype Scalar = Null | Bool(b: bool) | Int(i: int) | Str(s: string)

  /** Python truthiness of a leaf. */
  predicate Truthy(x: Scalar) {
    match x
    case Null => false
    case Bool(b) => b
    case Int(i) => i != 0
    case Str(s) => s != ""
  }

  /** The number a bool or an int stands for in a comparison. */
  function Numeric(x: Scalar): int
    requires x.Bool? || x.Int?
  {
    if x.Bool? then (if x.b then 1 else 0) else x.i
  }

  /** Python `==` on leaves: `True == 1` and `False == 0` hold. */
  predicate PyEq(x: Scalar, y: Scalar) {
    if (x.Bool? || x.Int?) && (y.Bool? || y.Int?) then Numeric(x) == Numeric(y)
    else x == y
  }

  /** A configuration value: a leaf, a plain `dict` or a `ConfigDict`. */
  datatype Value =
    | Atom(leaf: Scalar)
    | Plain(items: map<string, Value>)
    | Config(items: map<string, Value>, locked: bool)
  {
    predicate IsDict() {
      Plain? || Config?
    }
  }

  /** The keys and leaves of a value, forgetting which dicts are ConfigDicts and their locks. */
  function Forget(v: Value): Value {
    match v
    case Atom(_) => v
    case Plain(m) => Plain(map k | k in m :: Forget(m[k]))
    case Config(m, _) => Plain(map k | k in m :: Forget(m[k]))
  }

  /**
   * What `ConfigDict.__setitem__` stores for a value: a plain dict becomes a
   * new unlocked `ConfigDict` holding the same entries, recursively.
   */
  function Wrap(v: Value): (w: Value)
    ensures v.Plain? ==> w.Config? && !w.locked && w.items.Keys == v.items.Keys
    ensures !v.Plain? ==> w == v
    ensures Forget(w) == Forget(v)
  {
    match v
    case Plain(m) =>
      var w := Config(map k | k in m :: Wrap(m[k]), false);
      assert forall k | k in m :: Forget(w.items[k]) == Forget(m[k]);
      assert Forget(w).items == Forget(v).items;
      w
    case _ => v
  }

  /** Every `ConfigDict` reachable through `ConfigDict`s carries the lock flag `flag`. */
  predicate LocksAre(v: Value, flag: bool) {
    match v
    case Config(m, l) => l == flag && forall k | k in m :: LocksAre(m[k], flag)
    case _ => true
  }

  /**
   * `_lock` (flag true) and `_unlock` (flag false): set the flag on a
   * `ConfigDict` and on every `ConfigDict` among its values, recursively.
   * Plain dicts are not descended into.
   */
  function SetLocks(v: Value, flag: bool): (r: Value)
    ensures v.Config? ==> r.Config? && r.locked == flag && r.items.Keys == v.items.Keys
    ensures !v.Config? ==> r == v
    ensures Forget(r) == Forget(v)
    ensures LocksAre(r, flag)
  {
    match v
    case Config(m, _) =>
      var r := Config(map k | k in m :: SetLocks(m[k], flag), flag);
      assert forall k | k in m :: Forget(r.items[k]) == Forget(m[k]);
      assert Forget(r).items == Forget(v).items;
      r
    case _ => v
  }

  /** Locking and then unlocking leaves the same dict as unlocking alone. */
  lemma {:induction false} LockThenUnlock(v: Value)
    ensures SetLocks(SetLocks(v, true), false) == SetLocks(v, false)
  {
    match v
    case Config(m, _) =>
      forall k | k in m
        ensures SetLocks(SetLocks(m[k], true), false) == SetLocks(m[k], false)
      {
        LockThenUnlock(m[k]);
      }
      var l := SetLocks(SetLocks(v, true), false);
      var u := SetLocks(v, false);
      assert l.items == u.items;
    case _ =>
  }

  /** No `ConfigDict` anywhere inside. */
  predicate ConfigFree(v: Value) {
    match v
    case Atom(_) => true
    case Plain(m) => forall k | k in m :: ConfigFree(m[k])
    case Config(_, _) => false
  }

  /** Every plain dict reachable through `ConfigDict`s is free of `ConfigDict`s. */
  predicate PlainPartsConfigFree(v: Value) {
    match v
    case Atom(_) => true
    case Plain(_) => ConfigFree(v)
    case Config(m, _) => forall k | k in m :: PlainPartsConfigFree(m[k])
  }

  /**
   * `ConfigDict._copy`: the same keys and leaves, with every nested
   * `ConfigDict` turned into a plain dict. Other values are kept as they are.
   */
  function Copy(v: Value): (r: Value)
    ensures v.Config? ==> r.Plain? && r.items.Keys == v.items.Keys
    ensures !v.Config? ==> r == v
    ensures Forget(r) == Forget(v)
    ensures PlainPartsConfigFree(v) ==> ConfigFree(r)
  {
    match v
    case Config(m, _) =>
      var r := Plain(map k | k in m :: Copy(m[k]));
      assert forall k | k in m :: Forget(r.items[k]) == Forget(m[k]);
      assert Forget(r).items == Forget(v).items;
      r
    case _ => v
  }

  /** A dictionary's entries after an assignment or an update, and how it ended. */
  datatype Updated = Updated(items: map<string, Value>, outcome: Outcome<PyException>)

  /** `ConfigDict.__setitem__` on the entries `items` with lock flag `locked`. */
  function Store(items: map<string, Value>, locked: bool, key: string, value: Value): (u: Updated)
    ensures u.outcome.Fail? <==> locked && key !in items
    ensures u.outcome.Fail? ==> u.outcome.error == KeyError && u.items == items
    ensures u.outcome.Pass? ==> u.items.Keys == items.Keys + {key}
    ensures u.outcome.Pass? ==> Forget(u.items[key]) == Forget(value)
    ensures u.outcome.Pass? && value.Plain? ==> u.items[key].Config? && !u.items[key].locked
    ensures forall k | k in items && k != key :: k in u.items && u.items[k] == items[k]
  {
    if locked && key !in items then Updated(items, Fail(KeyError))
    else Updated(items[key := Wrap(value)], Pass)
  }

  /** `ConfigDict.update`: every pair goes through `__setitem__`, in order, until one fails. */
  function ApplyUpdate(items: map<string, Value>, locked: bool, pairs: seq<(string, Value)>): Updated
    decreases |pairs|
  {
    if pairs == [] then Updated(items, Pass)
    else
      var u := Store(items, locked, pairs[0].0, pairs[0].1);
      if u.outcome.Fail? then u else ApplyUpdate(u.items, locked, pairs[1..])
  }

  /** The keys named by a sequence of pairs. */
  function PairKeys(pairs: seq<(string, Value)>): set<string> {
    set i | 0 <= i < |pairs| :: pairs[i].0
  }

  /** An unlocked dict accepts every pair: all keys end up present, others keep their values. */
  lemma {:induction false} UpdateUnlocked(items: map<string, Value>, pairs: seq<(string, Value)>)
    ensures ApplyUpdate(items, false, pairs).outcome == Pass
    ensures ApplyUpdate(items, false, pairs).items.Keys == items.Keys + PairKeys(pairs)
    ensures forall k | k in items && k !in PairKeys(pairs) :: ApplyUpdate(items, false, pairs).items[k] == items[k]
    decreases |pairs|
  {
    if pairs != [] {
      var u := Store(items, false, pairs[0].0, pairs[0].1);
      UpdateUnlocked(u.items, pairs[1..]);
      assert PairKeys(pairs) == {pairs[0].0} + PairKeys(pairs[1..]) by {
        forall x | x in PairKeys(pairs) ensures x in {pairs[0].0} + PairKeys(pairs[1..]) {
          var i :| 0 <= i < |pairs| && pairs[i].0 == x;
          if i > 0 { assert pairs[1..][i - 1].0 == x; }
        }
        forall x | x in PairKeys(pairs[1..]) ensures x in PairKeys(pairs) {
          var i :| 0 <= i < |pairs[1..]| && pairs[1..][i].0 == x;
          assert pairs[i + 1].0 == x;
        }
      }
    }
  }

  /** A locked dict never gains a key, and the update succeeds exactly when every key is already there. */
  lemma {:induction false} UpdateLocked(items: map<string, Value>, pairs: seq<(string, Value)>)
    ensures ApplyUpdate(items, true, pairs).items.Keys == items.Keys
    ensures ApplyUpdate(items, true, pairs).outcome == Pass <==> PairKeys(pairs) <= items.Keys
    decreases |pairs|
  {
    if pairs != [] {
      var u := Store(items, true, pairs[0].0, pairs[0].1);
      if u.outcome.Pass? {
        UpdateLocked(u.items, pairs[1..]);
        assert u.items.Keys == items.Keys;
        assert PairKeys(pairs) == {pairs[0].0} + PairKeys(pairs[1..]) by {
          forall x | x in PairKeys(pairs) ensures x in {pairs[0].0} + PairKeys(pairs[1..]) {
            var i :| 0 <= i < |pairs| && pairs[i].0 == x;
            if i > 0 { assert pairs[1..][i - 1].0 == x; }
          }
          forall x | x in PairKeys(pairs[1..]) ensures x in PairKeys(pairs) {
            var i :| 0 <= i < |pairs[1..]| && pairs[1..][i].0 == x;
            assert pairs[i + 1].0 == x;
          }
        }
      } else {
        assert pairs[0].0 in PairKeys(pairs);
      }
    }
  }

  /** The top-level configuration dictionary (`CONFIG` is one). */
  class ConfigDict {
    var items: map<string, Value>
    var locked: bool

    /** This dictionary as a value, its nested dictionaries included. */
    function View(): (v: Value)
      reads this
      ensures v.Config? && v.items == items && v.locked == locked
    {
      Config(items, locked)
    }

    /** `ConfigDict(values)`: an unlocked dict filled through `update`. */
    constructor (values: seq<(string, Value)>)
      ensures !locked
      ensures items == ApplyUpdate(map[], false, values).items
      ensures items.Keys == PairKeys(values)
    {
      UpdateUnlocked(map[], values);
      items := ApplyUpdate(map[], false, values).items;
      locked := false;
    }

    /** `__setitem__`: a locked dict raises KeyError for a key it does not hold. */
    method SetItem(key: string, value: Value) returns (r: Outcome<PyException>)
      modifies this
      ensures locked == old(locked)
      ensures Updated(items, r) == Store(old(items), old(locked), key, value)
    {
      if locked && key !in items {
        return Fail(KeyError);
      }
      items := items[key := Wrap(value)];
      r := Pass;
    }

    /** `update`: each pair through `__setitem__`, stopping at the first KeyError. */
    method Update(pairs: seq<(string, Value)>) returns (r: Outcome<PyException>)
      modifies this
      ensures locked == old(locked)
      ensures Updated(items, r) == ApplyUpdate(old(items), old(locked), pairs)
    {
      var i := 0;
      while i < |pairs|
        invariant 0 <= i <= |pairs|
        invariant locked == old(locked)
        invariant ApplyUpdate(items, locked, pairs[i..]) == ApplyUpdate(old(items), locked, pairs)
      {
        assert pairs[i..][0] == pairs[i] && pairs[i..][1..] == pairs[i + 1..];
        r := SetItem(pairs[i].0, pairs[i].1);
        if r.Fail? {
          return;
        }
        i := i + 1;
      }
      r := Pass;
    }

    /** `_lock`: this dict and every nested ConfigDict refuse new keys afterwards. */
    method Lock()
      modifies this
      ensures View() == SetLocks(old(View()), true)
      ensures LocksAre(View(), true)
    {
      items := map k | k in items :: SetLocks(items[k], true);
      locked := true;
    }

    /** `_unlock`: this dict and every nested ConfigDict accept new keys afterwards. */
    method Unlock()
      modifies this
      ensures View() == SetLocks(old(View()), false)
      ensures LocksAre(View(), false)
    {
      items := map k | k in items :: SetLocks(items[k], false);
      locked := false;
    }
  }
}
