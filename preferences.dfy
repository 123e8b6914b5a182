/**
 * Table preferences: per-plugin key/value stores for the table and for each
 * column, the deprecated per-column preferences, and saving to / loading
 * from an adapter supplied by the application.
 */
module Preferences {
  import opened Wrappers
  import opened Values

  /** One plugin's part of a saved document; a part may be missing. */
  datatype PluginDoc = PluginDoc(table: Option<Record>, columns: Option<map<string, Record>>)

  /** A saved preferences document (`TablePreferencesData`). */
  datatype PreferencesDoc = PreferencesDoc(
    columns: Option<map<string, Record>>,
    plugins: Option<map<string, PluginDoc>>)

  /**
   * The application's adapter: whether it has `persist`, and what its
   * `restore(key)` hands back for this table's key (`None` when it has no
   * `restore` or returns nothing).
   */
  datatype Adapter = Adapter(canPersist: bool, restored: Option<PreferencesDoc>)

  const NotAnObject := "Cannot convert undefined or null to object"

  /** A plugin document `restore` accepts: both parts present. */
  predicate Complete(d: PluginDoc) {
    d.table.Some? && d.columns.Some?
  }

  /** `map.get(key) ?? new Map()` for a column key. */
  function ColumnOf(columns: map<string, Record>, key: string): Record {
    if key in columns then columns[key] else map[]
  }

  lemma UpdateOfUnion<K, V>(a: map<K, V>, b: map<K, V>, k: K, v: V)
    ensures (a + b)[k := v] == a + b[k := v]
  {
  }

  /** Copies a record entry by entry, as the serialization loops do. */
  method CopyRecord(r: Record) returns (c: Record)
    ensures c == r
  {
    c := map[];
    var todo := r.Keys;
    while todo != {}
      invariant todo <= r.Keys
      invariant c == map k | k in r && k !in todo :: r[k]
      decreases todo
    {
      var k :| k in todo;
      c := c[k := r[k]];
      todo := todo - {k};
    }
  }

  /** The preferences of one plugin (`TrackedPluginPrefs`). */
  class TrackedPluginPrefs {
    var table: Record
    var columns: map<string, Record>

    constructor()
      ensures table == map[] && columns == map[]
    {
      table := map[];
      columns := map[];
    }

    /** What `serialize` produces. */
    function Doc(): PluginDoc
      reads this
    {
      PluginDoc(Some(table), Some(columns))
    }

    /** `isAtDefault`: no table preference and no column preference. */
    predicate IsAtDefault()
      reads this
    {
      |table| == 0 && forall k | k in columns :: |columns[k]| == 0
    }

    /** `forColumn(key)`: the column's preferences, created empty if missing. */
    method ForColumn(key: string) returns (prefs: Record)
      modifies this
      ensures prefs == ColumnOf(old(columns), key)
      ensures columns == old(columns)[key := prefs] && table == old(table)
      ensures old(IsAtDefault()) ==> IsAtDefault()
    {
      if key in columns {
        prefs := columns[key];
      } else {
        prefs := map[];
        columns := columns[key := prefs];
      }
    }

    /** `forColumn(columnKey).set(key, value)` */
    method SetColumnValue(columnKey: string, key: string, value: Value)
      modifies this
      ensures columns == old(columns)[columnKey := ColumnOf(old(columns), columnKey)[key := value]]
      ensures table == old(table)
    {
      var prefs := ForColumn(columnKey);
      columns := columns[columnKey := prefs[key := value]];
    }

    /** `forColumn(columnKey).delete(key)` */
    method DeleteColumnValue(columnKey: string, key: string)
      modifies this
      ensures columns == old(columns)[columnKey := ColumnOf(old(columns), columnKey) - {key}]
      ensures table == old(table)
    {
      var prefs := ForColumn(columnKey);
      columns := columns[columnKey := prefs - {key}];
    }

    /** `serialize`: copies every column's preferences and the table's. */
    method Serialize() returns (doc: PluginDoc)
      ensures doc == Doc()
    {
      var columnsPrefs: map<string, Record> := map[];
      var todo := columns.Keys;
      while todo != {}
        invariant todo <= columns.Keys
        invariant columnsPrefs == map k | k in columns && k !in todo :: columns[k]
        decreases todo
      {
        var columnKey :| columnKey in todo;
        var serialized := CopyRecord(columns[columnKey]);
        columnsPrefs := columnsPrefs[columnKey := serialized];
        todo := todo - {columnKey};
      }
      assert columnsPrefs == columns;
      var tablePrefs := CopyRecord(table);
      doc := PluginDoc(Some(tablePrefs), Some(columnsPrefs));
    }

    /**
     * `restore(data)`: every column entry of the document replaces the
     * column's preferences, then the table preferences are replaced. A
     * missing part throws (`Object.entries(undefined)`), after the columns
     * were already restored when only the table part is missing.
     */
    method Restore(data: PluginDoc) returns (r: Outcome)
      modifies this
      ensures r.Pass? <==> Complete(data)
      ensures r.Fail? ==> r.msg == NotAnObject
      ensures data.columns.None? ==> columns == old(columns) && table == old(table)
      ensures data.columns.Some? ==> columns == old(columns) + data.columns.value
      ensures table == (if Complete(data) then data.table.value else old(table))
    {
      if data.columns.None? {
        return Fail(NotAnObject);
      }
      var incoming := data.columns.value;
      var todo := incoming.Keys;
      ghost var done: map<string, Record> := map[];
      while todo != {}
        invariant todo <= incoming.Keys
        invariant done.Keys == incoming.Keys - todo
        invariant forall k | k in done :: done[k] == incoming[k]
        invariant table == old(table)
        invariant columns == old(columns) + done
        decreases todo
      {
        var key :| key in todo;
        var prefs := CopyRecord(incoming[key]);
        UpdateOfUnion(old(columns), done, key, prefs);
        columns := columns[key := prefs];
        done := done[key := prefs];
        todo := todo - {key};
      }
      assert done == incoming;
      if data.table.None? {
        return Fail(NotAnObject);
      }
      table := data.table.value;
      r := Pass;
    }
  }

  /** `TrackedPreferences`: one `TrackedPluginPrefs` per plugin name. */
  class TrackedPreferences {
    var plugins: map<string, TrackedPluginPrefs>
    ghost var Repr: set<object>

    /** Each name has its own preferences object. */
    ghost predicate Valid()
      reads this, Repr
    {
      this in Repr &&
      (forall n | n in plugins :: plugins[n] in Repr) &&
      (forall n, m | n in plugins && m in plugins && n != m :: plugins[n] != plugins[m])
    }

    constructor()
      ensures Valid() && fresh(Repr)
      ensures plugins == map[]
    {
      plugins := map[];
      Repr := {this};
    }

    /** What `serialize` produces: each plugin's document by name. */
    ghost function View(): map<string, PluginDoc>
      reads this, Repr
      requires Valid()
    {
      map n | n in plugins :: plugins[n].Doc()
    }

    /** `isAtDefault` can be read off what `serialize` produces. */
    lemma AtDefaultIsView()
      requires Valid()
      ensures IsAtDefault() <==> AtDefault(View())
    {
      var view := View();
      forall n | n in plugins
        ensures plugins[n].IsAtDefault() <==>
                  |TableOf(view[n])| == 0 && forall k | k in ColumnsOf(view[n]) :: |ColumnsOf(view[n])[k]| == 0
      {
        assert view[n] == plugins[n].Doc();
        assert TableOf(view[n]) == plugins[n].table && ColumnsOf(view[n]) == plugins[n].columns;
      }
    }

    /** `isAtDefault`: every plugin's preferences are at their default. */
    predicate IsAtDefault()
      reads this, Repr
      requires Valid()
    {
      forall n | n in plugins :: plugins[n].IsAtDefault()
    }

    /** `forPlugin(name)`: the plugin's preferences, created empty if missing. */
    method ForPlugin(name: string) returns (p: TrackedPluginPrefs)
      requires Valid()
      modifies this
      ensures Valid()
      ensures name in plugins && p == plugins[name]
      ensures old(name in plugins) ==> plugins == old(plugins) && Repr == old(Repr)
      ensures !old(name in plugins) ==>
                fresh(p) && p.table == map[] && p.columns == map[] &&
                plugins == old(plugins)[name := p] && Repr == old(Repr) + {p}
      ensures View() == WithPlugin(old(View()), name)
    {
      if name in plugins {
        p := plugins[name];
      } else {
        p := new TrackedPluginPrefs();
        plugins := plugins[name := p];
        Repr := Repr + {p};
      }
    }

    /** `plugins.set(name, p)` for a preferences object not held yet. */
    method Put(name: string, p: TrackedPluginPrefs)
      requires Valid() && p !in Repr
      modifies this
      ensures Valid()
      ensures plugins == old(plugins)[name := p] && Repr == old(Repr) + {p}
    {
      plugins := plugins[name := p];
      Repr := Repr + {p};
    }

    /** Only the preferences object of `name` changed: the view changes at `name` only. */
    twostate lemma ViewAfterChangeOf(name: string)
      requires old(Valid()) && Valid() && plugins == old(plugins) && name in plugins
      requires forall n | n in plugins && n != name :: unchanged(plugins[n])
      ensures View() == old(View())[name := plugins[name].Doc()]
    {
    }

    /** `name` was given a preferences object and nothing else changed: the view changes at `name` only. */
    twostate lemma ViewAfterPut(name: string)
      requires old(Valid()) && Valid() && name in plugins
      requires plugins.Keys == old(plugins.Keys) + {name}
      requires forall n | n in plugins && n != name :: plugins[n] == old(plugins[n]) && unchanged(plugins[n])
      ensures View() == old(View())[name := plugins[name].Doc()]
    {
    }

    /** `forPlugin(name).forColumn(columnKey)` */
    method ColumnBucket(name: string, columnKey: string) returns (prefs: Record)
      requires Valid()
      modifies this, Repr
      ensures Valid() && fresh(Repr - old(Repr))
      ensures prefs == ColumnOf(ColumnsOf(PluginIn(old(View()), name)), columnKey)
      ensures View() == WithColumnBucket(old(View()), name, columnKey)
    {
      ghost var v0 := View();
      var p := ForPlugin(name);
      label mid:
      prefs := p.ForColumn(columnKey);
      ViewAfterChangeOf@mid(name);
      PluginStep(v0, name, old@mid(p.table), old@mid(p.columns), p.Doc());
    }

    /** `forPlugin(name).forColumn(columnKey).set(key, value)` */
    method SetColumnValue(name: string, columnKey: string, key: string, value: Value)
      requires Valid()
      modifies this, Repr
      ensures Valid() && fresh(Repr - old(Repr))
      ensures View() == WithColumnValue(old(View()), name, columnKey, key, value)
    {
      ghost var v0 := View();
      var p := ForPlugin(name);
      label mid:
      p.SetColumnValue(columnKey, key, value);
      ViewAfterChangeOf@mid(name);
      PluginStep(v0, name, old@mid(p.table), old@mid(p.columns), p.Doc());
    }

    /** `forPlugin(name).forColumn(columnKey).delete(key)` */
    method DeleteColumnValue(name: string, columnKey: string, key: string)
      requires Valid()
      modifies this, Repr
      ensures Valid() && fresh(Repr - old(Repr))
      ensures View() == WithoutColumnValue(old(View()), name, columnKey, key)
    {
      ghost var v0 := View();
      var p := ForPlugin(name);
      label mid:
      p.DeleteColumnValue(columnKey, key);
      ViewAfterChangeOf@mid(name);
      PluginStep(v0, name, old@mid(p.table), old@mid(p.columns), p.Doc());
    }

    /** `forPlugin(name).table.set(key, value)` */
    method SetTableValue(name: string, key: string, value: Value)
      requires Valid()
      modifies this, Repr
      ensures Valid() && fresh(Repr - old(Repr))
      ensures View() == WithTableValue(old(View()), name, key, value)
    {
      ghost var v0 := View();
      var p := ForPlugin(name);
      label mid:
      p.table := p.table[key := value];
      ViewAfterChangeOf@mid(name);
      PluginStep(v0, name, old@mid(p.table), old@mid(p.columns), p.Doc());
    }

    /** `forPlugin(name).table.delete(key)` */
    method DeleteTableValue(name: string, key: string)
      requires Valid()
      modifies this, Repr
      ensures Valid() && fresh(Repr - old(Repr))
      ensures View() == WithoutTableValue(old(View()), name, key)
    {
      ghost var v0 := View();
      var p := ForPlugin(name);
      label mid:
      p.table := p.table - {key};
      ViewAfterChangeOf@mid(name);
      PluginStep(v0, name, old@mid(p.table), old@mid(p.columns), p.Doc());
    }

    /** `serialize`: each plugin's serialized preferences under its name. */
    method Serialize() returns (doc: map<string, PluginDoc>)
      requires Valid()
      ensures doc == View()
    {
      doc := map[];
      var todo := plugins.Keys;
      while todo != {}
        invariant todo <= plugins.Keys
        invariant doc == map n | n in plugins && n !in todo :: plugins[n].Doc()
        decreases todo
      {
        var name :| name in todo;
        var d := plugins[name].Serialize();
        doc := doc[name := d];
        todo := todo - {name};
      }
    }

    /** One step of `restore`: a fresh preferences object restored from `d`, stored under `name`. */
    method RestorePlugin(name: string, d: PluginDoc) returns (r: Outcome)
      requires Valid()
      modifies this
      ensures Valid() && fresh(Repr - old(Repr))
      ensures r.Pass? <==> Complete(d)
      ensures r.Pass? ==> View() == old(View())[name := d]
    {
      ghost var before := View();
      var prefs := new TrackedPluginPrefs();
      r := prefs.Restore(d);
      if r.Fail? {
        return;
      }
      assert d == PluginDoc(Some(d.table.value), Some(d.columns.value));
      assert prefs.columns == d.columns.value;
      Put(name, prefs);
      ViewAfterPut(name);
    }

    /**
     * `restore(data)`: a fresh `TrackedPluginPrefs` restored from each plugin
     * entry replaces that plugin's preferences. It throws on the first
     * incomplete entry.
     */
    method Restore(data: PreferencesDoc) returns (r: Outcome)
      requires Valid()
      modifies this
      ensures Valid() && fresh(Repr - old(Repr))
      ensures r.Pass? <==> (data.plugins.None? || forall n | n in data.plugins.value :: Complete(data.plugins.value[n]))
      ensures r.Pass? ==> View() == old(View()) + (if data.plugins.Some? then data.plugins.value else map[])
    {
      var incoming := if data.plugins.Some? then data.plugins.value else map[];
      ghost var before := View();
      ghost var done: map<string, PluginDoc> := map[];
      var todo := incoming.Keys;
      while todo != {}
        invariant Valid() && fresh(Repr - old(Repr))
        invariant todo <= incoming.Keys
        invariant done.Keys == incoming.Keys - todo
        invariant forall n | n in done :: done[n] == incoming[n] && Complete(incoming[n])
        invariant View() == before + done
        decreases todo
      {
        var name :| name in todo;
        var outcome := RestorePlugin(name, incoming[name]);
        if outcome.Fail? {
          return outcome;
        }
        UpdateOfUnion(before, done, name, incoming[name]);
        done := done[name := incoming[name]];
        todo := todo - {name};
      }
      assert done == incoming;
      r := Pass;
    }
  }

  // ---------------------------------------------------------------------
  // Plugin preference documents, as values

  /** A plugin's document in a view, empty when the plugin has none yet. */
  function PluginIn(view: map<string, PluginDoc>, name: string): PluginDoc {
    if name in view then view[name] else PluginDoc(Some(map[]), Some(map[]))
  }

  function TableOf(d: PluginDoc): Record {
    if d.table.Some? then d.table.value else map[]
  }

  function ColumnsOf(d: PluginDoc): map<string, Record> {
    if d.columns.Some? then d.columns.value else map[]
  }

  /** The view after `forPlugin(name).forColumn(columnKey)`. */
  function WithColumnBucket(view: map<string, PluginDoc>, name: string, columnKey: string)
    : map<string, PluginDoc>
  {
    var d := PluginIn(view, name);
    view[name := PluginDoc(Some(TableOf(d)), Some(ColumnsOf(d)[columnKey := ColumnOf(ColumnsOf(d), columnKey)]))]
  }

  /** The view after `forPlugin(name).forColumn(columnKey).set(key, value)`. */
  function WithColumnValue(view: map<string, PluginDoc>, name: string, columnKey: string, key: string, value: Value)
    : map<string, PluginDoc>
  {
    var d := PluginIn(view, name);
    view[name := PluginDoc(Some(TableOf(d)),
                           Some(ColumnsOf(d)[columnKey := ColumnOf(ColumnsOf(d), columnKey)[key := value]]))]
  }

  /** The view after `forPlugin(name).forColumn(columnKey).delete(key)`. */
  function WithoutColumnValue(view: map<string, PluginDoc>, name: string, columnKey: string, key: string)
    : map<string, PluginDoc>
  {
    var d := PluginIn(view, name);
    view[name := PluginDoc(Some(TableOf(d)),
                           Some(ColumnsOf(d)[columnKey := ColumnOf(ColumnsOf(d), columnKey) - {key}]))]
  }

  /**
   * Replacing the document of `name` right after `forPlugin(name)` is the
   * same as replacing it in the view before.
   */
  lemma PluginStep(v0: map<string, PluginDoc>, name: string, table: Record, columns: map<string, Record>,
                   d: PluginDoc)
    requires WithPlugin(v0, name)[name] == PluginDoc(Some(table), Some(columns))
    ensures WithPlugin(v0, name)[name := d] == v0[name := d]
    ensures TableOf(PluginIn(v0, name)) == table && ColumnsOf(PluginIn(v0, name)) == columns
  {
  }

  /** The view after `forPlugin(name)`. */
  function WithPlugin(view: map<string, PluginDoc>, name: string): map<string, PluginDoc> {
    view[name := PluginIn(view, name)]
  }

  /** The view after `forPlugin(name).table.set(key, value)`. */
  function WithTableValue(view: map<string, PluginDoc>, name: string, key: string, value: Value)
    : map<string, PluginDoc>
  {
    var d := PluginIn(view, name);
    view[name := PluginDoc(Some(TableOf(d)[key := value]), d.columns)]
  }

  /** The view after `forPlugin(name).table.delete(key)`. */
  function WithoutTableValue(view: map<string, PluginDoc>, name: string, key: string)
    : map<string, PluginDoc>
  {
    var d := PluginIn(view, name);
    view[name := PluginDoc(Some(TableOf(d) - {key}), d.columns)]
  }

  /** `forPlugin(name).forColumn(columnKey).get(key)` on a view. */
  function ColumnValueIn(view: map<string, PluginDoc>, name: string, columnKey: string, key: string): Value {
    Get(ColumnOf(ColumnsOf(PluginIn(view, name)), columnKey), key)
  }

  /** `forPlugin(name).table.get(key)` on a view. */
  function TableValueIn(view: map<string, PluginDoc>, name: string, key: string): Value {
    Get(TableOf(PluginIn(view, name)), key)
  }

  /**
   * A column preference reads back as the value last set, reads as
   * `undefined` once deleted, and setting or deleting one key of one
   * plugin's column leaves every other key, column and plugin as it was.
   */
  lemma ColumnValueSetGet(view: map<string, PluginDoc>, name: string, columnKey: string, key: string,
                          value: Value, name': string, columnKey': string, key': string)
    ensures ColumnValueIn(WithColumnValue(view, name, columnKey, key, value), name, columnKey, key) == value
    ensures ColumnValueIn(WithoutColumnValue(view, name, columnKey, key), name, columnKey, key) == Undef
    ensures (name', columnKey', key') != (name, columnKey, key) ==>
              ColumnValueIn(WithColumnValue(view, name, columnKey, key, value), name', columnKey', key') ==
              ColumnValueIn(view, name', columnKey', key') &&
              ColumnValueIn(WithoutColumnValue(view, name, columnKey, key), name', columnKey', key') ==
              ColumnValueIn(view, name', columnKey', key')
  {
  }

  /** The same for table preferences. */
  lemma TableValueSetGet(view: map<string, PluginDoc>, name: string, key: string, value: Value,
                         name': string, key': string)
    ensures TableValueIn(WithTableValue(view, name, key, value), name, key) == value
    ensures TableValueIn(WithoutTableValue(view, name, key), name, key) == Undef
    ensures (name', key') != (name, key) ==>
              TableValueIn(WithTableValue(view, name, key, value), name', key') == TableValueIn(view, name', key') &&
              TableValueIn(WithoutTableValue(view, name, key), name', key') == TableValueIn(view, name', key')
  {
  }

  /** `isAtDefault` on a view: no plugin holds a table preference or a column preference. */
  predicate AtDefault(view: map<string, PluginDoc>) {
    forall n | n in view ::
      |TableOf(view[n])| == 0 && forall k | k in ColumnsOf(view[n]) :: |ColumnsOf(view[n])[k]| == 0
  }

  /**
   * A store with no plugins is at its default; `forPlugin` and `forColumn`
   * insert only empty maps and so keep it there, while setting any value
   * leaves it.
   */
  lemma GetOrCreateKeepsDefault(view: map<string, PluginDoc>, name: string, columnKey: string,
                                key: string, value: Value)
    ensures AtDefault(map[])
    ensures AtDefault(view) ==>
              AtDefault(WithPlugin(view, name)) && AtDefault(WithColumnBucket(view, name, columnKey))
    ensures !AtDefault(WithColumnValue(view, name, columnKey, key, value))
    ensures !AtDefault(WithTableValue(view, name, key, value))
  {
    var d := PluginIn(view, name);
    var cols := ColumnsOf(d)[columnKey := ColumnOf(ColumnsOf(d), columnKey)[key := value]];
    assert ColumnsOf(WithColumnValue(view, name, columnKey, key, value)[name]) == cols;
    assert |cols[columnKey]| != 0 by {
      assert key in cols[columnKey];
    }
    assert key in TableOf(WithTableValue(view, name, key, value)[name]);
  }

  // ---------------------------------------------------------------------
  // The saved document

  /** The deprecated column preferences that are not empty. */
  function NonEmptyColumns(cp: map<string, Record>): map<string, Record> {
    map k | k in cp && |cp[k]| > 0 :: cp[k]
  }

  /** `toTablePreferencesData()`: `columns` only when some column has preferences. */
  function LegacyDoc(cp: map<string, Record>): PreferencesDoc {
    var cols := NonEmptyColumns(cp);
    if |cols| > 0 then PreferencesDoc(Some(cols), None) else PreferencesDoc(None, None)
  }

  /** `{ ...a, ...b }` on two documents: a part of `b` that is present wins. */
  function Spread(a: PreferencesDoc, b: PreferencesDoc): PreferencesDoc {
    PreferencesDoc(if b.columns.Some? then b.columns else a.columns,
                   if b.plugins.Some? then b.plugins else a.plugins)
  }

  /** What `persist` hands to the adapter. */
  function SavedDoc(cp: map<string, Record>, view: map<string, PluginDoc>): PreferencesDoc {
    Spread(LegacyDoc(cp), PreferencesDoc(None, Some(view)))
  }

  /** The deprecated column preferences after restoring `data` over `cp`. */
  function RestoredColumns(cp: map<string, Record>, data: PreferencesDoc): map<string, Record> {
    cp + (if data.columns.Some? then data.columns.value else map[])
  }

  /** The plugin view after restoring `data` over `view` (when it succeeds). */
  function RestoredView(view: map<string, PluginDoc>, data: PreferencesDoc): map<string, PluginDoc> {
    view + (if data.plugins.Some? then data.plugins.value else map[])
  }

  /**
   * Restoring what was saved, into empty preferences, gives back the plugin
   * preferences exactly and the deprecated column preferences without the
   * empty columns; and the saved document always restores without error.
   */
  lemma SaveRestoreRoundTrip(cp: map<string, Record>, view: map<string, PluginDoc>)
    requires forall n | n in view :: Complete(view[n])
    ensures RestoredView(map[], SavedDoc(cp, view)) == view
    ensures RestoredColumns(map[], SavedDoc(cp, view)) == NonEmptyColumns(cp)
    ensures forall n | n in SavedDoc(cp, view).plugins.value :: Complete(SavedDoc(cp, view).plugins.value[n])
  {
    var cols := NonEmptyColumns(cp);
    if |cols| == 0 {
      assert cols == map[];
    }
  }

  /**
   * `TablePreferences`: the plugin preferences, the deprecated column
   * preferences, the table's key and the adapter. `persisted` records every
   * call made to the adapter's `persist`, with its arguments.
   */
  class TablePreferences {
    var storage: TrackedPreferences
    var columnPreferences: map<string, Record>
    const key: string
    const adapter: Option<Adapter>
    var persisted: seq<(string, PreferencesDoc)>

    ghost predicate Valid()
      reads this, storage, storage.Repr
    {
      storage.Valid() && this !in storage.Repr
    }

    /** The document `persist` would hand to the adapter now. */
    ghost function Saved(): PreferencesDoc
      reads this, storage, storage.Repr
      requires Valid()
    {
      SavedDoc(columnPreferences, storage.View())
    }

    /** The object before its constructor restores from the adapter. */
    constructor Init(key: string, adapter: Option<Adapter>)
      ensures Valid() && fresh(storage) && fresh(storage.Repr)
      ensures this.key == key && this.adapter == adapter
      ensures storage.plugins == map[] && columnPreferences == map[] && persisted == []
    {
      this.key := key;
      this.adapter := adapter;
      storage := new TrackedPreferences();
      columnPreferences := map[];
      persisted := [];
    }

    /**
     * `new TablePreferences(key, adapter)`: with an adapter, restores from
     * it; a malformed saved document makes the construction throw.
     */
    static method Create(key: string, adapter: Option<Adapter>) returns (r: Result<TablePreferences>)
      ensures r.Ok? ==> fresh(r.value) && fresh(r.value.storage) && r.value.Valid() &&
                        r.value.key == key && r.value.adapter == adapter && r.value.persisted == []
      ensures r.Ok? && (adapter.None? || adapter.value.restored.None?) ==>
                r.value.storage.View() == map[] && r.value.columnPreferences == map[]
      ensures r.Ok? && adapter.Some? && adapter.value.restored.Some? ==>
                r.value.storage.View() == RestoredView(map[], adapter.value.restored.value) &&
                r.value.columnPreferences == RestoredColumns(map[], adapter.value.restored.value)
      ensures r.Err? <==> adapter.Some? && adapter.value.restored.Some? &&
                          adapter.value.restored.value.plugins.Some? &&
                          exists n | n in adapter.value.restored.value.plugins.value ::
                            !Complete(adapter.value.restored.value.plugins.value[n])
    {
      var prefs := new TablePreferences.Init(key, adapter);
      assert prefs.storage.View() == map[];
      if adapter.Some? {
        var outcome := prefs.Restore(adapter.value);
        if outcome.Fail? {
          return Err(outcome.msg);
        }
      }
      r := Ok(prefs);
    }

    /** `hasAdapter()` */
    predicate HasAdapter()
      reads this
    {
      adapter.Some?
    }

    /** `getIsAtDefault()` */
    predicate GetIsAtDefault()
      reads this, storage, storage.Repr
      requires Valid()
      ensures GetIsAtDefault() <==> AtDefault(storage.View())
    {
      storage.AtDefaultIsView();
      storage.IsAtDefault()
    }

    /** `getColumnPreferences(columnKey)`, `{}` when there are none. */
    function GetColumnPreferences(columnKey: string): (r: Record)
      reads this
      ensures columnKey in columnPreferences ==> r == columnPreferences[columnKey]
      ensures columnKey !in columnPreferences ==> r == map[]
    {
      ColumnOf(columnPreferences, columnKey)
    }

    /** `toTablePreferencesData()`: the loop keeping non-empty column preferences. */
    method ToTablePreferencesData() returns (data: PreferencesDoc)
      ensures data == LegacyDoc(columnPreferences)
    {
      var columns: map<string, Record> := map[];
      var todo := columnPreferences.Keys;
      while todo != {}
        invariant todo <= columnPreferences.Keys
        invariant columns == map k | k in columnPreferences && k !in todo && |columnPreferences[k]| > 0 ::
                               columnPreferences[k]
        decreases todo
      {
        var k :| k in todo;
        if |columnPreferences[k]| > 0 {
          columns := columns[k := columnPreferences[k]];
        }
        todo := todo - {k};
      }
      assert columns == NonEmptyColumns(columnPreferences);
      if |columns| > 0 {
        data := PreferencesDoc(Some(columns), None);
      } else {
        data := PreferencesDoc(None, None);
      }
    }

    /** `persist()`: hands the saved document to the adapter's `persist`, if any. */
    method Persist()
      requires Valid()
      modifies this`persisted
      ensures Valid()
      ensures storage == old(storage) && columnPreferences == old(columnPreferences)
      ensures persisted == old(persisted) +
                (if adapter.Some? && adapter.value.canPersist then [(key, Saved())] else [])
    {
      if adapter.Some? && adapter.value.canPersist {
        var doc := Snapshot();
        persisted := persisted + [(key, doc)];
      }
    }

    /** The document `persist` builds: the deprecated column data spread under the plugins' data. */
    method Snapshot() returns (doc: PreferencesDoc)
      requires Valid()
      ensures doc == Saved()
    {
      var legacy := ToTablePreferencesData();
      var plugins := storage.Serialize();
      doc := Spread(legacy, PreferencesDoc(None, Some(plugins)));
    }

    /**
     * `restore(adapter)`: copies the saved deprecated column preferences in,
     * then restores the plugin preferences; nothing happens when the adapter
     * hands back no document.
     */
    method Restore(a: Adapter) returns (r: Outcome)
      requires Valid()
      modifies this, storage
      ensures Valid() && storage == old(storage) && fresh(storage.Repr - old(storage.Repr))
      ensures persisted == old(persisted)
      ensures a.restored.None? ==> r.Pass? && columnPreferences == old(columnPreferences) &&
                                   storage.View() == old(storage.View())
      ensures a.restored.Some? ==>
                columnPreferences == RestoredColumns(old(columnPreferences), a.restored.value) &&
                (r.Pass? <==> (a.restored.value.plugins.None? ||
                               forall n | n in a.restored.value.plugins.value ::
                                 Complete(a.restored.value.plugins.value[n]))) &&
                (r.Pass? ==> storage.View() == RestoredView(old(storage.View()), a.restored.value))
    {
      if a.restored.None? {
        return Pass;
      }
      var data := a.restored.value;
      ghost var view := storage.View();
      CopyColumns(if data.columns.Some? then data.columns.value else map[]);
      assert storage.View() == view;
      r := storage.Restore(data);
      assert r.Pass? ==> storage.View() == RestoredView(view, data);
    }

    /** The loop of `restore` copying the saved column preferences in, key by key. */
    method CopyColumns(incoming: map<string, Record>)
      modifies this`columnPreferences
      ensures columnPreferences == old(columnPreferences) + incoming
    {
      var todo := incoming.Keys;
      ghost var done: map<string, Record> := map[];
      while todo != {}
        invariant todo <= incoming.Keys
        invariant done.Keys == incoming.Keys - todo
        invariant forall k | k in done :: done[k] == incoming[k]
        invariant columnPreferences == old(columnPreferences) + done
        decreases todo
      {
        var k :| k in todo;
        UpdateOfUnion(old(columnPreferences), done, k, incoming[k]);
        columnPreferences := columnPreferences[k := incoming[k]];
        done := done[k := incoming[k]];
        todo := todo - {k};
      }
      assert done == incoming;
    }

    /** `deleteColumnPreference(columnKey, key)` (deprecated). */
    method DeleteColumnPreference(columnKey: string, k: string) returns (removed: bool)
      requires Valid()
      modifies this
      ensures Valid() && storage == old(storage)
      ensures removed <==> k in old(GetColumnPreferences(columnKey))
      ensures !removed ==> columnPreferences == old(columnPreferences) && persisted == old(persisted)
      ensures removed ==>
                var rest := old(GetColumnPreferences(columnKey)) - {k};
                columnPreferences == (if |rest| == 0 then old(columnPreferences) - {columnKey}
                                      else old(columnPreferences)[columnKey := rest]) &&
                persisted == old(persisted) +
                  (if adapter.Some? && adapter.value.canPersist then [(key, Saved())] else [])
    {
      var preferences := GetColumnPreferences(columnKey);
      if k !in preferences {
        return false;
      }
      var newPreferences := preferences - {k};
      if |newPreferences| == 0 {
        columnPreferences := columnPreferences - {columnKey};
      } else {
        columnPreferences := columnPreferences[columnKey := newPreferences];
      }
      Persist();
      removed := true;
    }

    /** `setColumnPreferences(columnKey, value)` (deprecated). */
    method SetColumnPreferences(columnKey: string, value: Record)
      requires Valid()
      modifies this
      ensures Valid() && storage == old(storage)
      ensures columnPreferences == old(columnPreferences)[columnKey := value]
      ensures persisted == old(persisted) +
                (if adapter.Some? && adapter.value.canPersist then [(key, Saved())] else [])
    {
      columnPreferences := columnPreferences[columnKey := value];
      Persist();
    }

    /** `setColumnPreference(columnKey, key, value)` (deprecated). */
    method SetColumnPreference(columnKey: string, k: string, value: Value)
      requires Valid()
      modifies this
      ensures Valid() && storage == old(storage)
      ensures columnPreferences == old(columnPreferences)[columnKey := old(GetColumnPreferences(columnKey))[k := value]]
      ensures persisted == old(persisted) +
                (if adapter.Some? && adapter.value.canPersist then [(key, Saved())] else [])
    {
      var preferences := GetColumnPreferences(columnKey);
      columnPreferences := columnPreferences[columnKey := preferences[k := value]];
      Persist();
    }
  }
}
