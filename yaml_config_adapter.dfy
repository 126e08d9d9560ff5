/**
 * YamlConfigAdapter's mutable half: the raw root section that every reload merges the decoded document
 * into, and the memo of derived key values that a reload refreshes according to each key's reloadable
 * flag. The decoded document is a parameter; reading config.yml and copying the bundled default are not
 * modelled.
 */
module YamlConfigAdapters {
  import opened Wrappers
  import opened Yaml
  import opened YamlConfigLookup
  import opened ConfigKeyTypes
  import opened ConfigKeys

  /** The key names of a sequence of keys. */
  function KeyNames(keys: seq<ConfigKey>): (r: set<string>)
    ensures forall name :: name in r <==> exists i :: 0 <= i < |keys| && keys[i].key == name
  {
    set i | 0 <= i < |keys| :: keys[i].key
  }

  /** No two keys share a name. */
  predicate DistinctNames(keys: seq<ConfigKey>) {
    forall i, j :: 0 <= i < j < |keys| ==> keys[i].key != keys[j].key
  }

  /** The registered keys have different names, none with a dot. */
  lemma ConfigKeysRegistrable()
    ensures DistinctNames(CONFIG_KEYS)
    ensures forall i :: 0 <= i < |CONFIG_KEYS| ==> '.' !in CONFIG_KEYS[i].key
  {
    KeyNamesValid();
    assert |DEFAULT_RESET_INTERVAL_NAME| == 22;
    assert |BROADCAST_MESSAGE_NAME| == 17;
    assert |BROADCAST_PRIOR_RESET_NAME| == 21;
  }

  /** The entries putAll receives: the document's own when it is a map, none otherwise. */
  function ReadEntries(read: Value): map<string, Value> {
    if read.Section? then read.entries else map[]
  }

  /** rootRaw.putAll: the document's keys take its values, every other key keeps its old one. */
  function Merged(root: map<string, Value>, read: Value): (r: map<string, Value>)
    ensures forall name :: name in r <==> name in root || name in ReadEntries(read)
    ensures forall name :: name in ReadEntries(read) ==> r[name] == ReadEntries(read)[name]
    ensures forall name :: name in root && name !in ReadEntries(read) ==> r[name] == root[name]
    ensures !read.Section? ==> r == root
  {
    root + ReadEntries(read)
  }

  /** configKey.get(this) for a registered key. The lookup of a name without a dot never fails, so the
      fallback in the failure branch is never produced for the registered keys (DerivedRegistered). */
  function Derived(root: map<string, Value>, k: ConfigKey): Setting {
    match KeyGet(k, root)
    case Ok(v) => v
    case Err(_) => k.fallback
  }

  /** For a registered key, Derived is exactly the key's successful lookup. */
  lemma DerivedRegistered(root: map<string, Value>, i: nat)
    requires i < |CONFIG_KEYS|
    ensures KeyGet(CONFIG_KEYS[i], root) == Ok(Derived(root, CONFIG_KEYS[i]))
  {
    KeyPathsDirect(CONFIG_KEYS[i], root);
  }

  /** Derived as a function value, the derivation every reload from root uses. */
  function Deriver(root: map<string, Value>): (derive: ConfigKey -> Setting)
    ensures forall k :: derive(k) == Derived(root, k)
  {
    k => Derived(root, k)
  }

  /** Whether reload(force) re-derives k. */
  predicate Refreshes(k: ConfigKey, force: bool) {
    k.reloadable || force
  }

  /** The memo after the loop of reload has visited keys, in order, deriving each refreshed key with derive. */
  function RefreshKeys(unwind: map<string, Setting>, force: bool, keys: seq<ConfigKey>, derive: ConfigKey -> Setting)
    : map<string, Setting>
  {
    if keys == [] then unwind
    else
      var u := RefreshKeys(unwind, force, keys[..|keys| - 1], derive);
      var k := keys[|keys| - 1];
      if Refreshes(k, force) then u[k.key := derive(k)] else u
  }

  /** The memo after one pass of reload: a key it re-derives maps to its derived value; a key it skips
      keeps whatever was memoised for it (or stays absent); other names are untouched. */
  lemma {:induction false} RefreshKeysSpec(unwind: map<string, Setting>, force: bool, keys: seq<ConfigKey>,
                                           derive: ConfigKey -> Setting)
    requires DistinctNames(keys)
    ensures var r := RefreshKeys(unwind, force, keys, derive);
            && (forall i :: 0 <= i < |keys| && Refreshes(keys[i], force) ==>
                  keys[i].key in r && r[keys[i].key] == derive(keys[i]))
            && (forall i :: 0 <= i < |keys| && !Refreshes(keys[i], force) ==>
                  (keys[i].key in r <==> keys[i].key in unwind) &&
                  (keys[i].key in unwind ==> r[keys[i].key] == unwind[keys[i].key]))
            && (forall name :: name !in KeyNames(keys) ==> (name in r <==> name in unwind))
            && (forall name :: name !in KeyNames(keys) && name in unwind ==> r[name] == unwind[name])
  {
    if keys != [] {
      var init := keys[..|keys| - 1];
      assert DistinctNames(init);
      RefreshKeysSpec(unwind, force, init, derive);
      assert forall i :: 0 <= i < |init| ==> init[i] == keys[i];
      assert forall name :: name in KeyNames(init) ==> name in KeyNames(keys);
    }
  }

  /** The memo after reload(force) over the registered keys: each refreshed key maps to its value in root,
      each skipped key keeps its memoised value, other names are untouched. */
  function Refreshed(unwind: map<string, Setting>, root: map<string, Value>, force: bool): (r: map<string, Setting>)
    ensures forall i :: 0 <= i < |CONFIG_KEYS| && Refreshes(CONFIG_KEYS[i], force) ==>
              CONFIG_KEYS[i].key in r && KeyGet(CONFIG_KEYS[i], root) == Ok(r[CONFIG_KEYS[i].key])
    ensures forall i :: 0 <= i < |CONFIG_KEYS| && !Refreshes(CONFIG_KEYS[i], force) ==>
              (CONFIG_KEYS[i].key in r <==> CONFIG_KEYS[i].key in unwind) &&
              (CONFIG_KEYS[i].key in unwind ==> r[CONFIG_KEYS[i].key] == unwind[CONFIG_KEYS[i].key])
    ensures forall name :: name !in KeyNames(CONFIG_KEYS) ==> (name in r <==> name in unwind)
    ensures forall name :: name !in KeyNames(CONFIG_KEYS) && name in unwind ==> r[name] == unwind[name]
  {
    ConfigKeysRegistrable();
    var derive := Deriver(root);
    RefreshKeysSpec(unwind, force, CONFIG_KEYS, derive);
    forall i | 0 <= i < |CONFIG_KEYS|
      ensures KeyGet(CONFIG_KEYS[i], root) == Ok(derive(CONFIG_KEYS[i]))
    {
      DerivedRegistered(root, i);
    }
    RefreshKeys(unwind, force, CONFIG_KEYS, derive)
  }

  /** get(configKey): the memoised value when there is one; otherwise the derived value, which is stored
      when the derivation succeeds. */
  function Memo(unwind: map<string, Setting>, root: map<string, Value>, k: ConfigKey)
    : (Result<Setting, LookupError>, map<string, Setting>)
  {
    if k.key in unwind then (Ok(unwind[k.key]), unwind)
    else match KeyGet(k, root)
      case Ok(v) => (Ok(v), unwind[k.key := v])
      case Err(e) => (Err(e), unwind)
  }

  /** A second get of the same key returns what the first returned and stores nothing new: once a value is
      memoised it is not derived again. */
  lemma MemoStable(unwind: map<string, Setting>, root: map<string, Value>, k: ConfigKey)
    ensures Memo(unwind, root, k).0.Ok? ==> k.key in Memo(unwind, root, k).1
    ensures Memo(unwind, root, k).0.Ok? ==>
              Memo(Memo(unwind, root, k).1, root, k) == (Memo(unwind, root, k).0, Memo(unwind, root, k).1)
  {
  }

  /** A memoised value wins over the document: get answers from the memo even when root now says otherwise. */
  lemma MemoIgnoresRoot(unwind: map<string, Setting>, root1: map<string, Value>, root2: map<string, Value>, k: ConfigKey)
    requires k.key in unwind
    ensures Memo(unwind, root1, k) == Memo(unwind, root2, k) == (Ok(unwind[k.key]), unwind)
  {
  }

  /** Without a memoised value, get of a key without a dot derives it from root, stores it and returns it. */
  lemma MemoDerives(unwind: map<string, Setting>, root: map<string, Value>, k: ConfigKey)
    requires '.' !in k.key && k.key !in unwind
    ensures Memo(unwind, root, k) == (Ok(Derived(root, k)), unwind[k.key := Derived(root, k)])
    ensures KeyGet(k, root) == Ok(Derived(root, k))
  {
    DotlessKeyGet(k, root);
  }

  /** After load, which ends with reload(true), every registered key answers get with its value in the
      merged root, without deriving anything again. */
  lemma LoadDerivesAll(unwind: map<string, Setting>, root: map<string, Value>, i: nat)
    requires i < |CONFIG_KEYS|
    ensures KeyGet(CONFIG_KEYS[i], root).Ok?
    ensures Memo(Refreshed(unwind, root, true), root, CONFIG_KEYS[i]) == (KeyGet(CONFIG_KEYS[i], root), Refreshed(unwind, root, true))
  {
    var r := Refreshed(unwind, root, true);
    assert Refreshes(CONFIG_KEYS[i], true);
    MemoHit(r, root, CONFIG_KEYS[i]);
  }

  lemma MemoHit(unwind: map<string, Setting>, root: map<string, Value>, k: ConfigKey)
    requires k.key in unwind && KeyGet(k, root) == Ok(unwind[k.key])
    ensures Memo(unwind, root, k) == (KeyGet(k, root), unwind)
  {
  }

  /** reload() re-derives the reloadable keys from the new root, while broadcast-prior-reset keeps the moments
      memoised before, whatever the new document says. */
  lemma ReloadKeepsMoments(unwind: map<string, Setting>, root: map<string, Value>, i: nat)
    requires i < |CONFIG_KEYS| && CONFIG_KEYS[i].key in unwind
    ensures CONFIG_KEYS[i].reloadable ==>
              Memo(Refreshed(unwind, root, false), root, CONFIG_KEYS[i]).0 == KeyGet(CONFIG_KEYS[i], root)
    ensures !CONFIG_KEYS[i].reloadable ==>
              Memo(Refreshed(unwind, root, false), root, CONFIG_KEYS[i]).0 == Ok(unwind[CONFIG_KEYS[i].key])
    ensures !CONFIG_KEYS[i].reloadable <==> CONFIG_KEYS[i].key == BROADCAST_PRIOR_RESET_NAME
  {
    ConfigKeysRegistrable();
    DefaultIntervalFallback();
  }

  /** Refreshing the same keys from the same root twice gives what refreshing once gives. */
  lemma RefreshKeysTwice(unwind: map<string, Setting>, force: bool, keys: seq<ConfigKey>, derive: ConfigKey -> Setting)
    requires DistinctNames(keys)
    ensures RefreshKeys(RefreshKeys(unwind, force, keys, derive), force, keys, derive)
         == RefreshKeys(unwind, force, keys, derive)
  {
    var once := RefreshKeys(unwind, force, keys, derive);
    var twice := RefreshKeys(once, force, keys, derive);
    RefreshKeysSpec(unwind, force, keys, derive);
    RefreshKeysSpec(once, force, keys, derive);
    forall name | name in KeyNames(keys)
      ensures (name in twice <==> name in once) && (name in twice ==> twice[name] == once[name])
    {
      var i :| 0 <= i < |keys| && keys[i].key == name;
    }
    assert twice == once;
  }

  /** Reloading the same document twice leaves the same state as reloading it once. */
  lemma ReloadIdempotent(root: map<string, Value>, unwind: map<string, Setting>, read: Value, force: bool)
    ensures Merged(Merged(root, read), read) == Merged(root, read)
    ensures var root' := Merged(root, read);
            Refreshed(Refreshed(unwind, root', force), root', force) == Refreshed(unwind, root', force)
  {
    ConfigKeysRegistrable();
    RefreshKeysTwice(unwind, force, CONFIG_KEYS, Deriver(Merged(root, read)));
  }

  /** Every memoised value of a registered key has that key's type, as the generic ConfigKey<T> ensures. */
  predicate TypedMemo(unwind: map<string, Setting>) {
    forall i :: 0 <= i < |CONFIG_KEYS| && CONFIG_KEYS[i].key in unwind ==>
      SameKind(unwind[CONFIG_KEYS[i].key], CONFIG_KEYS[i].fallback)
  }

  /** A reload keeps the memo typed. */
  lemma RefreshedTyped(unwind: map<string, Setting>, root: map<string, Value>, force: bool)
    requires TypedMemo(unwind)
    ensures TypedMemo(Refreshed(unwind, root, force))
  {
    var r := Refreshed(unwind, root, force);
    forall i | 0 <= i < |CONFIG_KEYS| && CONFIG_KEYS[i].key in r
      ensures SameKind(r[CONFIG_KEYS[i].key], CONFIG_KEYS[i].fallback)
    {
      if !Refreshes(CONFIG_KEYS[i], force) {
        assert CONFIG_KEYS[i].key in unwind;
      }
    }
  }

  /** On a typed memo, get of a registered key succeeds with a value of the key's type and keeps the memo
      typed. */
  lemma MemoTyped(unwind: map<string, Setting>, root: map<string, Value>, i: nat)
    requires TypedMemo(unwind) && i < |CONFIG_KEYS|
    ensures Memo(unwind, root, CONFIG_KEYS[i]).0.Ok?
    ensures SameKind(Memo(unwind, root, CONFIG_KEYS[i]).0.value, CONFIG_KEYS[i].fallback)
    ensures TypedMemo(Memo(unwind, root, CONFIG_KEYS[i]).1)
  {
    ConfigKeysRegistrable();
    KeyPathsDirect(CONFIG_KEYS[i], root);
  }

  /** get of a key whose name is not registered leaves the registered entries alone. */
  lemma MemoUnregisteredTyped(unwind: map<string, Setting>, root: map<string, Value>, k: ConfigKey)
    requires TypedMemo(unwind) && k.key !in KeyNames(CONFIG_KEYS)
    ensures TypedMemo(Memo(unwind, root, k).1)
  {
    var u := Memo(unwind, root, k).1;
    forall i | 0 <= i < |CONFIG_KEYS| && CONFIG_KEYS[i].key in u
      ensures SameKind(u[CONFIG_KEYS[i].key], CONFIG_KEYS[i].fallback)
    {
      assert CONFIG_KEYS[i].key in KeyNames(CONFIG_KEYS);
    }
  }

  class YamlConfigAdapter {
    /** The decoded root section, merged into by every reload. */
    var rootRaw: map<string, Value>
    /** The memo of derived key values, by key name. */
    var unwind: map<string, Setting>

    /** The memo holds only values of the right type. */
    predicate Typed()
      reads this
    {
      TypedMemo(unwind)
    }

    constructor()
      ensures rootRaw == map[] && unwind == map[]
      ensures Typed()
    {
      rootRaw := map[];
      unwind := map[];
    }

    /** load(): reload(true) on the document read from config.yml. */
    method Load(read: Value)
      modifies this
      ensures rootRaw == Merged(old(rootRaw), read)
      ensures unwind == Refreshed(old(unwind), rootRaw, true)
      ensures old(Typed()) ==> Typed()
    {
      ReloadWith(true, read);
    }

    /** reload(): reload(false). */
    method Reload(read: Value)
      modifies this
      ensures rootRaw == Merged(old(rootRaw), read)
      ensures unwind == Refreshed(old(unwind), rootRaw, false)
      ensures old(Typed()) ==> Typed()
    {
      ReloadWith(false, read);
    }

    /** reload(force): merge the document into the root, then re-derive each registered key that is
        reloadable or forced. */
    method ReloadWith(force: bool, read: Value)
      modifies this
      ensures rootRaw == Merged(old(rootRaw), read)
      ensures unwind == Refreshed(old(unwind), rootRaw, force)
      ensures old(Typed()) ==> Typed()
    {
      rootRaw := Merged(rootRaw, read);
      ReloadKeys(force, CONFIG_KEYS);
      if old(Typed()) {
        RefreshedTyped(old(unwind), rootRaw, force);
      }
    }

    /** The forEach of reload(force): re-derive from rootRaw each key that is reloadable or forced. */
    method ReloadKeys(force: bool, keys: seq<ConfigKey>)
      modifies this
      ensures rootRaw == old(rootRaw)
      ensures unwind == RefreshKeys(old(unwind), force, keys, Deriver(rootRaw))
    {
      var i := 0;
      while i < |keys|
        invariant 0 <= i <= |keys|
        invariant rootRaw == old(rootRaw)
        invariant unwind == RefreshKeys(old(unwind), force, keys[..i], Deriver(rootRaw))
      {
        var configKey := keys[i];
        assert keys[..i + 1][..i] == keys[..i];
        if configKey.reloadable || force {
          unwind := unwind[configKey.key := Derived(rootRaw, configKey)];
        }
        i := i + 1;
      }
      assert keys[..|keys|] == keys;
    }

    /** get(configKey), memoising the derived value. */
    method Get(k: ConfigKey) returns (r: Result<Setting, LookupError>)
      modifies this
      ensures rootRaw == old(rootRaw)
      ensures (r, unwind) == Memo(old(unwind), rootRaw, k)
      ensures old(Typed()) && (k in CONFIG_KEYS || k.key !in KeyNames(CONFIG_KEYS)) ==> Typed()
    {
      if Typed() {
        if k in CONFIG_KEYS {
          var i :| 0 <= i < |CONFIG_KEYS| && CONFIG_KEYS[i] == k;
          MemoTyped(unwind, rootRaw, i);
        } else if k.key !in KeyNames(CONFIG_KEYS) {
          MemoUnregisteredTyped(unwind, rootRaw, k);
        }
      }
      if k.key in unwind {
        return Ok(unwind[k.key]);
      }
      r := KeyGet(k, rootRaw);
      if r.Ok? {
        unwind := unwind[k.key := r.value];
      }
    }

    /** getBoolean, getInt, getDouble, getString, getList and getSection: validate(key, get(key), t). A
        present value of the type is returned, anything else reads as null, and a failing path lookup
        propagates. */
    function GetTyped(key: string, t: JavaType): (r: Result<Option<Value>, LookupError>)
      reads this
      ensures r.Err? <==> YamlConfigLookup.Get(key, Some(rootRaw)).Err?
      ensures r.Ok? && r.value.Some? ==> IsInstance(t, r.value.value) && YamlConfigLookup.Get(key, Some(rootRaw)) == Ok(r.value)
      ensures r.Ok? && r.value.None? ==>
                YamlConfigLookup.Get(key, Some(rootRaw)).value.None? || !IsInstance(t, YamlConfigLookup.Get(key, Some(rootRaw)).value.value)
    {
      TypedGet(rootRaw, key, t)
    }
  }
}
