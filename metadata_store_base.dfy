/**
 * `MetadataStoreBase`: metadata values attached to subjects, kept per
 * disambiguated key and, under each key, one value per owning plugin.
 */
module MetadataStoreBase {
  /** A metadata value: the plugin that owns it and what it holds. */
  datatype MetadataValue<P, D> = MetadataValue(plugin: P, payload: D)

  type Store<P, D> = map<string, map<P, MetadataValue<P, D>>>

  /**
   * The invariant of `metadataMap`: no key keeps an empty inner map, and
   * each inner map files a value under the plugin that owns it.
   */
  predicate ValidStore<P(==,!new), D(==,!new)>(m: Store<P, D>)
  {
    forall k :: k in m ==> |m[k]| > 0 && forall p :: p in m[k] ==> m[k][p].plugin == p
  }

  /** `getMetadata` on a store: the values under `key`, none for an unknown key. */
  function ValuesAt<P(==,!new), D(==,!new)>(m: Store<P, D>, key: string): (r: set<MetadataValue<P, D>>)
    ensures key !in m ==> r == {}
    ensures key in m ==> forall v :: v in r <==> exists p :: p in m[key] && m[key][p] == v
  {
    if key in m then m[key].Values else {}
  }

  /** `setMetadata` on a store: the value is filed under its plugin, creating the key when absent. */
  function SetEntry<P(==,!new), D(==,!new)>(m: Store<P, D>, key: string, value: MetadataValue<P, D>): (r: Store<P, D>)
    requires ValidStore(m)
    ensures ValidStore(r)
  {
    var entry := if key in m then m[key] else map[];
    m[key := entry[value.plugin := value]]
  }

  /** `removeMetadata` on a store: the plugin's value under `key` goes, and the key goes once empty. */
  function RemoveEntry<P(==,!new), D(==,!new)>(m: Store<P, D>, key: string, plugin: P): (r: Store<P, D>)
    requires ValidStore(m)
    ensures ValidStore(r)
  {
    if key !in m then m
    else
      var entry := m[key] - {plugin};
      if |entry| == 0 then m - {key} else m[key := entry]
  }

  /**
   * `removeAll` part way through: the keys still in `todo` are untouched;
   * every other key has lost the plugin's value and is gone once empty.
   */
  function RemovePluginExcept<P(==,!new), D(==,!new)>(m: Store<P, D>, plugin: P, todo: set<string>): (r: Store<P, D>)
  {
    map k | k in m && (k in todo || !Emptied(m[k], plugin)) :: if k in todo then m[k] else m[k] - {plugin}
  }

  /** Removing `plugin` leaves `entry` empty. */
  predicate Emptied<P, V>(entry: map<P, V>, plugin: P)
  {
    entry.Keys <= {plugin}
  }

  /** `isEmpty()` after `remove(plugin)` is `Emptied`. */
  lemma EmptiedIff<P, V>(entry: map<P, V>, plugin: P)
    ensures |entry - {plugin}| == 0 <==> Emptied(entry, plugin)
  {
    if Emptied(entry, plugin) {
      assert (entry - {plugin}).Keys == {};
    } else {
      var q :| q in entry && q != plugin;
      assert q in (entry - {plugin});
    }
  }

  /** `removeAll(plugin)` on a store. */
  function RemovePlugin<P(==,!new), D(==,!new)>(m: Store<P, D>, plugin: P): (r: Store<P, D>)
    ensures forall k :: k in r ==> k in m && r[k] == m[k] - {plugin} && plugin !in r[k]
    ensures forall k :: k in m ==> (k in r <==> !Emptied(m[k], plugin))
  {
    RemovePluginExcept(m, plugin, {})
  }

  class MetadataStoreBase<S, P(==,!new), D(==,!new)> {
    var metadataMap: Store<P, D>
    /** The key a subclass derives from a subject and a metadata key. */
    const disambiguate: (S, string) -> string

    ghost predicate Valid()
      reads this
    {
      ValidStore(metadataMap)
    }

    constructor (disambiguate: (S, string) -> string)
      ensures Valid() && metadataMap == map[] && this.disambiguate == disambiguate
    {
      metadataMap := map[];
      this.disambiguate := disambiguate;
    }

    /** `getMetadata(subject, key)`: the values stored for the subject and key, in no particular order. */
    function GetMetadata(subject: S, key: string): (r: set<MetadataValue<P, D>>)
      reads this
      requires Valid()
      ensures r == {} <==> !HasMetadata(subject, key)
      ensures r == ValuesAt(metadataMap, disambiguate(subject, key))
    {
      var d := disambiguate(subject, key);
      if d in metadataMap then
        var p :| p in metadataMap[d];
        assert metadataMap[d][p] in metadataMap[d].Values;
        ValuesAt(metadataMap, d)
      else ValuesAt(metadataMap, d)
    }

    /** `hasMetadata(subject, key)`: some value is stored for the subject and key. */
    predicate HasMetadata(subject: S, key: string)
      reads this
      requires Valid()
      ensures HasMetadata(subject, key) <==> ValuesAt(metadataMap, disambiguate(subject, key)) != {}
    {
      HasIffValues(metadataMap, disambiguate(subject, key));
      disambiguate(subject, key) in metadataMap
    }

    /** `setMetadata(subject, key, value)`. */
    method SetMetadata(subject: S, key: string, value: MetadataValue<P, D>)
      requires Valid()
      modifies this
      ensures Valid()
      ensures metadataMap == SetEntry(old(metadataMap), disambiguate(subject, key), value)
      ensures HasMetadata(subject, key) && value in GetMetadata(subject, key)
    {
      SetThenGet(metadataMap, disambiguate(subject, key), value);
      var d := disambiguate(subject, key);
      var entry := if d in metadataMap then metadataMap[d] else map[];
      metadataMap := metadataMap[d := entry[value.plugin := value]];
    }

    /** `removeMetadata(subject, key, plugin)`. */
    method RemoveMetadata(subject: S, key: string, plugin: P)
      requires Valid()
      modifies this
      ensures Valid()
      ensures metadataMap == RemoveEntry(old(metadataMap), disambiguate(subject, key), plugin)
    {
      var d := disambiguate(subject, key);
      if d !in metadataMap {
        return;
      }
      var entry := metadataMap[d] - {plugin};
      if |entry| == 0 {
        metadataMap := metadataMap - {d};
      } else {
        metadataMap := metadataMap[d := entry];
      }
    }

    /** `removeAll(plugin)`: walks every key, drops the plugin's value, and drops the key once empty. */
    method RemoveAll(plugin: P)
      requires Valid()
      modifies this
      ensures Valid()
      ensures metadataMap == RemovePlugin(old(metadataMap), plugin)
    {
      ghost var m0 := metadataMap;
      var todo := metadataMap.Keys;
      RemovePluginNone(m0, plugin);
      while todo != {}
        invariant todo <= m0.Keys
        invariant metadataMap == RemovePluginExcept(m0, plugin, todo)
        decreases todo
      {
        var k :| k in todo;
        RemovePluginStep(m0, plugin, todo, k);
        EmptiedIff(metadataMap[k], plugin);
        var values := metadataMap[k] - {plugin};
        if |values| == 0 {
          metadataMap := metadataMap - {k};
        } else {
          metadataMap := metadataMap[k := values];
        }
        todo := todo - {k};
      }
      RemovePluginValid(m0, plugin);
    }
  }

  /** Before the `removeAll` loop nothing has changed. */
  lemma RemovePluginNone<P(!new), D(!new)>(m: Store<P, D>, plugin: P)
    ensures RemovePluginExcept(m, plugin, m.Keys) == m
  {
  }

  /** One turn of the `removeAll` loop: the key `k` loses the plugin's value, and goes once empty. */
  lemma RemovePluginStep<P(!new), D(!new)>(m: Store<P, D>, plugin: P, todo: set<string>, k: string)
    requires todo <= m.Keys && k in todo
    ensures k in RemovePluginExcept(m, plugin, todo)
    ensures var current := RemovePluginExcept(m, plugin, todo);
      var values := current[k] - {plugin};
      (if Emptied(current[k], plugin) then current - {k} else current[k := values]) == RemovePluginExcept(m, plugin, todo - {k})
  {
    var current := RemovePluginExcept(m, plugin, todo);
    var next := RemovePluginExcept(m, plugin, todo - {k});
    var values := current[k] - {plugin};
    assert current[k] == m[k];
    var result := if Emptied(current[k], plugin) then current - {k} else current[k := values];
    assert result.Keys == next.Keys by {
      forall j | j in m && j != k ensures j in result <==> j in next {
      }
    }
    forall j | j in next ensures result[j] == next[j] {
    }
  }

  /** `removeAll` keeps the invariant. */
  lemma RemovePluginValid<P(!new), D(!new)>(m: Store<P, D>, plugin: P)
    requires ValidStore(m)
    ensures ValidStore(RemovePlugin(m, plugin))
  {
  }

  /** In a valid store a key is present exactly when it holds some value. */
  lemma HasIffValues<P(!new), D(!new)>(m: Store<P, D>, key: string)
    requires ValidStore(m)
    ensures key in m <==> ValuesAt(m, key) != {}
  {
    if key in m {
      var p :| p in m[key];
      assert m[key][p] in ValuesAt(m, key);
    }
  }

  /** After `setMetadata`, the key is present and its values hold the new value. */
  lemma SetThenGet<P(!new), D(!new)>(m: Store<P, D>, key: string, value: MetadataValue<P, D>)
    requires ValidStore(m)
    ensures key in SetEntry(m, key, value)
    ensures value in ValuesAt(SetEntry(m, key, value), key)
  {
    assert SetEntry(m, key, value)[key][value.plugin] == value;
  }

  /** Setting again for the same plugin replaces its value: no other value of that plugin is left under the key. */
  lemma SetReplacesSamePlugin<P(!new), D(!new)>(m: Store<P, D>, key: string, value: MetadataValue<P, D>, other: MetadataValue<P, D>)
    requires ValidStore(m)
    requires other in ValuesAt(SetEntry(m, key, value), key) && other.plugin == value.plugin
    ensures other == value
  {
  }

  /** `setMetadata` leaves the values of other plugins and other keys as they were. */
  lemma SetLeavesOthers<P(!new), D(!new)>(m: Store<P, D>, key: string, value: MetadataValue<P, D>, k: string, v: MetadataValue<P, D>)
    requires ValidStore(m)
    requires v.plugin != value.plugin || k != key
    ensures v in ValuesAt(SetEntry(m, key, value), k) <==> v in ValuesAt(m, k)
  {
    var r := SetEntry(m, key, value);
    if v in ValuesAt(m, k) {
      var p :| p in m[k] && m[k][p] == v;
      assert p in r[k] && r[k][p] == v;
    }
    if v in ValuesAt(r, k) {
      var p :| p in r[k] && r[k][p] == v;
      assert p in m[k] && m[k][p] == v;
    }
  }

  /** After `removeMetadata`, no value of that plugin is left under the key, and every other value stays. */
  lemma RemoveThenGet<P(!new), D(!new)>(m: Store<P, D>, key: string, plugin: P, v: MetadataValue<P, D>)
    requires ValidStore(m)
    ensures v in ValuesAt(RemoveEntry(m, key, plugin), key) <==> v in ValuesAt(m, key) && v.plugin != plugin
  {
    var r := RemoveEntry(m, key, plugin);
    if v in ValuesAt(m, key) && v.plugin != plugin {
      var p :| p in m[key] && m[key][p] == v;
      assert p in r[key] && r[key][p] == v;
    }
  }

  /** Setting a value for a plugin with nothing under the key and then removing it restores the store. */
  lemma SetThenRemove<P(!new), D(!new)>(m: Store<P, D>, key: string, value: MetadataValue<P, D>)
    requires ValidStore(m)
    requires key !in m || value.plugin !in m[key]
    ensures RemoveEntry(SetEntry(m, key, value), key, value.plugin) == m
  {
    if key in m {
      assert m[key][value.plugin := value] - {value.plugin} == m[key];
    }
  }

  /** After `removeAll(plugin)`, no key holds a value of the plugin, and every other value stays where it was. */
  lemma RemoveAllThenGet<P(!new), D(!new)>(m: Store<P, D>, plugin: P, key: string, v: MetadataValue<P, D>)
    requires ValidStore(m)
    ensures v in ValuesAt(RemovePlugin(m, plugin), key) <==> v in ValuesAt(m, key) && v.plugin != plugin
  {
    var r := RemovePlugin(m, plugin);
    if v in ValuesAt(m, key) && v.plugin != plugin {
      var p :| p in m[key] && m[key][p] == v;
      assert p in m[key] - {plugin};
      assert p in r[key] && r[key][p] == v;
    }
  }
}
