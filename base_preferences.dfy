/**
 * The preference accessors plugins use: a key/value store per plugin for
 * each column, for all columns at once, and for the table. Every write
 * saves the preferences through the adapter; reads do not.
 */
module PluginPreferences {
  import opened Values
  import opened Preferences

  /** The adapter calls one `persist()` adds. */
  function PersistCall(prefs: TablePreferences, saved: PreferencesDoc): seq<(string, PreferencesDoc)>
    reads prefs
  {
    if prefs.adapter.Some? && prefs.adapter.value.canPersist then [(prefs.key, saved)] else []
  }

  /** The view after deleting `key` in each listed column of one plugin. */
  function WithoutColumnValues(view: map<string, PluginDoc>, name: string, columnKeys: seq<string>, key: string)
    : map<string, PluginDoc>
  {
    if columnKeys == [] then view
    else
      var n := |columnKeys| - 1;
      WithoutColumnValue(WithoutColumnValues(view, name, columnKeys[..n], key), name, columnKeys[n], key)
  }

  /**
   * After deleting a key for all columns, it reads as `undefined` in every
   * one of them, and every other preference is as it was.
   */
  lemma {:induction false} WithoutColumnValuesGet(view: map<string, PluginDoc>, name: string,
                                                  columnKeys: seq<string>, key: string,
                                                  name': string, columnKey': string, key': string)
    ensures columnKey' in columnKeys && name' == name && key' == key ==>
              ColumnValueIn(WithoutColumnValues(view, name, columnKeys, key), name', columnKey', key') == Undef
    ensures !(columnKey' in columnKeys && name' == name && key' == key) ==>
              ColumnValueIn(WithoutColumnValues(view, name, columnKeys, key), name', columnKey', key') ==
              ColumnValueIn(view, name', columnKey', key')
  {
    if columnKeys != [] {
      var n := |columnKeys| - 1;
      WithoutColumnValuesGet(view, name, columnKeys[..n], key, name', columnKey', key');
      ColumnValueSetGet(WithoutColumnValues(view, name, columnKeys[..n], key), name, columnKeys[n], key,
                        Undef, name', columnKey', key');
      assert columnKeys == columnKeys[..n] + [columnKeys[n]];
    }
  }

  /** `preferences.forColumn(column, klass).get(key)`; creates the buckets, saves nothing. */
  method ColumnGet(prefs: TablePreferences, pluginName: string, columnKey: string, key: string)
    returns (v: Value)
    requires prefs.Valid()
    modifies prefs.storage, prefs.storage.Repr
    ensures prefs.Valid() && fresh(prefs.storage.Repr - old(prefs.storage.Repr))
    ensures v == ColumnValueIn(old(prefs.storage.View()), pluginName, columnKey, key)
    ensures prefs.storage.View() == WithColumnBucket(old(prefs.storage.View()), pluginName, columnKey)
  {
    var columnPrefs := prefs.storage.ColumnBucket(pluginName, columnKey);
    v := Get(columnPrefs, key);
  }

  /** `preferences.forColumn(column, klass).set(key, value)` */
  method ColumnSet(prefs: TablePreferences, pluginName: string, columnKey: string, key: string, value: Value)
    requires prefs.Valid()
    modifies prefs, prefs.storage, prefs.storage.Repr
    ensures prefs.Valid() && prefs.storage == old(prefs.storage)
    ensures fresh(prefs.storage.Repr - old(prefs.storage.Repr))
    ensures prefs.storage.View() == WithColumnValue(old(prefs.storage.View()), pluginName, columnKey, key, value)
    ensures prefs.columnPreferences == old(prefs.columnPreferences)
    ensures prefs.persisted == old(prefs.persisted) + PersistCall(prefs, prefs.Saved())
  {
    prefs.storage.SetColumnValue(pluginName, columnKey, key, value);
    prefs.Persist();
  }

  /** `preferences.forColumn(column, klass).delete(key)` */
  method ColumnDelete(prefs: TablePreferences, pluginName: string, columnKey: string, key: string)
    requires prefs.Valid()
    modifies prefs, prefs.storage, prefs.storage.Repr
    ensures prefs.Valid() && prefs.storage == old(prefs.storage)
    ensures fresh(prefs.storage.Repr - old(prefs.storage.Repr))
    ensures prefs.storage.View() == WithoutColumnValue(old(prefs.storage.View()), pluginName, columnKey, key)
    ensures prefs.columnPreferences == old(prefs.columnPreferences)
    ensures prefs.persisted == old(prefs.persisted) + PersistCall(prefs, prefs.Saved())
  {
    prefs.storage.DeleteColumnValue(pluginName, columnKey, key);
    prefs.Persist();
  }

  /**
   * `preferences.forAllColumns(table, klass).delete(key)`: deletes the key
   * in every column of the table, then saves once.
   */
  method AllColumnsDelete(prefs: TablePreferences, pluginName: string, columnKeys: seq<string>, key: string)
    requires prefs.Valid()
    modifies prefs, prefs.storage, prefs.storage.Repr
    ensures prefs.Valid() && prefs.storage == old(prefs.storage)
    ensures fresh(prefs.storage.Repr - old(prefs.storage.Repr))
    ensures prefs.storage.View() == WithoutColumnValues(old(prefs.storage.View()), pluginName, columnKeys, key)
    ensures prefs.columnPreferences == old(prefs.columnPreferences)
    ensures prefs.persisted == old(prefs.persisted) + PersistCall(prefs, prefs.Saved())
  {
    for i := 0 to |columnKeys|
      invariant prefs.Valid() && prefs.storage == old(prefs.storage)
      invariant prefs.columnPreferences == old(prefs.columnPreferences) && prefs.persisted == old(prefs.persisted)
      invariant fresh(prefs.storage.Repr - old(prefs.storage.Repr))
      invariant prefs.storage.View() == WithoutColumnValues(old(prefs.storage.View()), pluginName, columnKeys[..i], key)
    {
      prefs.storage.DeleteColumnValue(pluginName, columnKeys[i], key);
      assert columnKeys[..i + 1][..i] == columnKeys[..i];
    }
    assert columnKeys[..|columnKeys|] == columnKeys;
    prefs.Persist();
  }

  /** `preferences.forTable(table, klass).get(key)`; creates the plugin's bucket, saves nothing. */
  method TableGet(prefs: TablePreferences, pluginName: string, key: string) returns (v: Value)
    requires prefs.Valid()
    modifies prefs.storage
    ensures prefs.Valid() && fresh(prefs.storage.Repr - old(prefs.storage.Repr))
    ensures v == TableValueIn(old(prefs.storage.View()), pluginName, key)
    ensures prefs.storage.View() == WithPlugin(old(prefs.storage.View()), pluginName)
  {
    var p := prefs.storage.ForPlugin(pluginName);
    v := Get(p.table, key);
    assert p.Doc() == PluginIn(old(prefs.storage.View()), pluginName);
  }

  /** `preferences.forTable(table, klass).set(key, value)` */
  method TableSet(prefs: TablePreferences, pluginName: string, key: string, value: Value)
    requires prefs.Valid()
    modifies prefs, prefs.storage, prefs.storage.Repr
    ensures prefs.Valid() && prefs.storage == old(prefs.storage)
    ensures fresh(prefs.storage.Repr - old(prefs.storage.Repr))
    ensures prefs.storage.View() == WithTableValue(old(prefs.storage.View()), pluginName, key, value)
    ensures prefs.columnPreferences == old(prefs.columnPreferences)
    ensures prefs.persisted == old(prefs.persisted) + PersistCall(prefs, prefs.Saved())
  {
    prefs.storage.SetTableValue(pluginName, key, value);
    prefs.Persist();
  }

  /** `preferences.forTable(table, klass).delete(key)` */
  method TableDelete(prefs: TablePreferences, pluginName: string, key: string)
    requires prefs.Valid()
    modifies prefs, prefs.storage, prefs.storage.Repr
    ensures prefs.Valid() && prefs.storage == old(prefs.storage)
    ensures fresh(prefs.storage.Repr - old(prefs.storage.Repr))
    ensures prefs.storage.View() == WithoutTableValue(old(prefs.storage.View()), pluginName, key)
    ensures prefs.columnPreferences == old(prefs.columnPreferences)
    ensures prefs.persisted == old(prefs.persisted) + PersistCall(prefs, prefs.Saved())
  {
    prefs.storage.DeleteTableValue(pluginName, key);
    prefs.Persist();
  }
}
