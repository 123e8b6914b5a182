/**
 * The table resource: its arguments, the plugin instances it builds from
 * the `plugins` argument, the rows and columns it derives from the `data`
 * and `columns` arguments, and the selection and pagination getters.
 */
module TableModel {
  import opened Wrappers
  import opened Values
  import opened Types
  import opened PluginConfig
  import opened Base
  import opened Preferences

  /**
   * An optional thunk returning a list: `NoSupplier` when the argument is
   * absent, otherwise what calling it returns (`None`: `undefined`/`null`).
   */
  datatype Supplier<T> = NoSupplier | Supplies(items: Option<seq<T>>)

  /** The `preferences` argument: `{ key?, adapter? }`. */
  datatype PreferencesArg = PreferencesArg(key: Option<string>, adapter: Option<Adapter>)

  /**
   * The named arguments a table is configured with. `rowSelection` is what
   * the `rowSelection` function returns, when one is given; `pagination`
   * and `meta` are plain objects; the remaining flags and callbacks are
   * JavaScript values, `undefined` when not given.
   */
  datatype TableArgs = TableArgs(
    plugins: Option<seq<Entry>>,
    preferences: Option<PreferencesArg>,
    data: Supplier<Value>,
    columns: Supplier<ColumnConfig>,
    rowSelection: Option<Value>,
    bulkSelection: Value,
    isCheckboxSelectable: Value,
    isRowSelectable: Value,
    onRowSelectionChange: Value,
    pagination: Option<Record>,
    meta: Option<Record>)

  /** `DEFAULT_COLUMN_CONFIG` */
  const DefaultColumnConfig: Record := map["isVisible" := Bool(true), "minWidth" := Num(128.0)]

  const NoOwner := "The Table does not have an owner. cannot create a plugin without an owner"
  const NotAConstructor := "PluginClass is not a constructor"

  // ---------------------------------------------------------------------
  // Plugins

  /**
   * One element of `plugins.map(...)`: a class is constructed (which needs
   * the table's owner), a plugin object is passed through, and an arrow
   * function cannot be called with `new`.
   */
  function Instantiate(head: Slot, hasOwner: bool): (r: Result<Plugin>)
    requires head.PluginSlot? || head.ThunkSlot?
  {
    match head
    case PluginSlot(ClassRef(c)) =>
      if hasOwner then Ok(Plugin(c.id, c.className, c.features, c.proto)) else Err(NoOwner)
    case PluginSlot(ObjectRef(o)) => Ok(Plugin(o.ctor, o.ctorName, o.ctorFeatures, o.shape))
    case ThunkSlot(_) => Err(NotAConstructor)
  }

  /** `Array.prototype.map` with `Instantiate`; the first throw aborts it. */
  function InstantiateAll(heads: seq<Slot>, hasOwner: bool): Result<seq<Plugin>>
    requires forall h <- heads :: h.PluginSlot? || h.ThunkSlot?
  {
    if heads == [] then Ok([])
    else
      match Instantiate(heads[0], hasOwner)
      case Err(m) => Err(m)
      case Ok(p) =>
        match InstantiateAll(heads[1..], hasOwner)
        case Err(m) => Err(m)
        case Ok(ps) => Ok([p] + ps)
  }

  function Heads(ts: seq<PluginTuple>): (heads: seq<Slot>)
    ensures |heads| == |ts| && forall i :: 0 <= i < |ts| ==> heads[i] == ts[i].head
  {
    seq(|ts|, i requires 0 <= i < |ts| => ts[i].head)
  }

  /** `table.plugins`: normalize the configuration, verify it, instantiate. */
  function Plugins(config: Option<seq<Entry>>, hasOwner: bool): Result<seq<Plugin>> {
    match Normalized(config)
    case Err(m) => Err(m)
    case Ok(ts) =>
      var heads := Heads(ts);
      match Verified(heads)
      case Fail(m) => Err(m)
      case Pass =>
        assert forall h <- heads :: h.PluginSlot? || h.ThunkSlot? by {
          NormalizedHeads(config);
        }
        InstantiateAll(heads, hasOwner)
  }

  /** After normalization every tuple starts with a plugin class or a function. */
  lemma NormalizedHeads(config: Option<seq<Entry>>)
    requires Normalized(config).Ok?
    ensures forall h <- Heads(Normalized(config).value) :: h.PluginSlot? || h.ThunkSlot?
  {
    var ts := Normalized(config).value;
    assert forall t <- ts :: Invokable(t);
    forall h | h in Heads(ts) ensures h.PluginSlot? || h.ThunkSlot? {
      var i :| 0 <= i < |ts| && Heads(ts)[i] == h;
      assert Invokable(ts[i]);
    }
  }

  /**
   * The map succeeds exactly when every element does; it then keeps one
   * plugin per element, in order, and otherwise reports the first failure.
   */
  lemma {:induction false} InstantiateAllCharacterized(heads: seq<Slot>, hasOwner: bool)
    requires forall h <- heads :: h.PluginSlot? || h.ThunkSlot?
    ensures InstantiateAll(heads, hasOwner).Ok? <==>
              forall i :: 0 <= i < |heads| ==> Instantiate(heads[i], hasOwner).Ok?
    ensures InstantiateAll(heads, hasOwner).Ok? ==>
              var ps := InstantiateAll(heads, hasOwner).value;
              |ps| == |heads| &&
              forall i :: 0 <= i < |heads| ==> ps[i] == Instantiate(heads[i], hasOwner).value
    ensures InstantiateAll(heads, hasOwner).Err? ==>
              exists i :: 0 <= i < |heads| &&
                Instantiate(heads[i], hasOwner) == Err(InstantiateAll(heads, hasOwner).msg) &&
                forall j :: 0 <= j < i ==> Instantiate(heads[j], hasOwner).Ok?
  {
    if heads != [] {
      InstantiateAllCharacterized(heads[1..], hasOwner);
      assert forall i :: 1 <= i < |heads| ==> heads[i] == heads[1..][i - 1];
      var r := InstantiateAll(heads, hasOwner);
      if Instantiate(heads[0], hasOwner).Err? {
        assert Instantiate(heads[0], hasOwner) == Err(r.msg);
      } else if r.Err? {
        var i :| 0 <= i < |heads[1..]| &&
                 Instantiate(heads[1..][i], hasOwner) == Err(r.msg) &&
                 forall j :: 0 <= j < i ==> Instantiate(heads[1..][j], hasOwner).Ok?;
        assert Instantiate(heads[i + 1], hasOwner) == Err(r.msg);
      }
    }
  }

  /** A plugin class or object is instantiated unless a class lacks the owner. */
  lemma InstantiateOk(head: Slot, hasOwner: bool)
    requires head.PluginSlot? || head.ThunkSlot?
    ensures Instantiate(head, hasOwner).Ok? <==>
              head.PluginSlot? && (head.p.ClassRef? ==> hasOwner)
    ensures head.PluginSlot? && head.p.ClassRef? && hasOwner ==>
              var p := Instantiate(head, hasOwner).value;
              p.ctor == head.p.c.id && p.shape == head.p.c.proto
    ensures head.PluginSlot? && head.p.ObjectRef? ==>
              Instantiate(head, hasOwner).value.shape == head.p.o.shape
  {
  }

  /**
   * The three steps of `table.plugins`: a configuration that fails to
   * normalize or to verify makes the getter throw that error; otherwise
   * there is one plugin per normalized tuple, in order.
   */
  lemma PluginsCharacterized(config: Option<seq<Entry>>, hasOwner: bool)
    ensures Normalized(config).Err? ==> Plugins(config, hasOwner) == Err(Normalized(config).msg)
    ensures Normalized(config).Ok? && Verified(Heads(Normalized(config).value)).Fail? ==>
              Plugins(config, hasOwner) == Err(Verified(Heads(Normalized(config).value)).msg)
    ensures Normalized(config).Ok? && Verified(Heads(Normalized(config).value)).Pass? ==>
              var heads := Heads(Normalized(config).value);
              (forall h <- heads :: h.PluginSlot? || h.ThunkSlot?) &&
              (Plugins(config, hasOwner).Ok? <==>
                 forall i :: 0 <= i < |heads| ==> Instantiate(heads[i], hasOwner).Ok?) &&
              (Plugins(config, hasOwner).Ok? ==>
                 |Plugins(config, hasOwner).value| == |heads| &&
                 forall i :: 0 <= i < |heads| ==>
                   Plugins(config, hasOwner).value[i] == Instantiate(heads[i], hasOwner).value)
  {
    if Normalized(config).Ok? && Verified(Heads(Normalized(config).value)).Pass? {
      NormalizedHeads(config);
      InstantiateAllCharacterized(Heads(Normalized(config).value), hasOwner);
    }
  }

  /** `table.pluginOf(klass)`: the lookup throws whatever `plugins` throws. */
  function TablePluginOf(config: Option<seq<Entry>>, hasOwner: bool, klass: ClassId)
    : (r: Result<Option<Plugin>>)
    ensures r.Err? <==> Plugins(config, hasOwner).Err?
    ensures r.Ok? && r.value.Some? ==>
              r.value.value in Plugins(config, hasOwner).value && InstanceOf(r.value.value, klass)
    ensures r.Ok? && r.value.None? ==>
              forall p <- Plugins(config, hasOwner).value :: !InstanceOf(p, klass)
    ensures r.Ok? && r.value.Some? ==>
              var ps := Plugins(config, hasOwner).value;
              exists i :: 0 <= i < |ps| && ps[i] == r.value.value &&
                forall j :: 0 <= j < i ==> !InstanceOf(ps[j], klass)
  {
    match Plugins(config, hasOwner)
    case Err(m) => Err(m)
    case Ok(ps) => PluginOfFirst(ps, klass); Ok(PluginOf(ps, klass))
  }

  // ---------------------------------------------------------------------
  // Rows and columns

  /** `fn ? fn() ?? [] : []` */
  function Items<T>(s: Supplier<T>): seq<T> {
    match s
    case NoSupplier => []
    case Supplies(items) => if items.Some? then items.value else []
  }

  /** `table.rows`: one row per datum, in order. */
  function RowsOf(args: TableArgs): (r: seq<Row>)
    ensures (args.data.NoSupplier? || args.data.items.None?) ==> r == []
    ensures args.data.Supplies? && args.data.items.Some? ==>
              |r| == |args.data.items.value| &&
              forall i :: 0 <= i < |r| ==> r[i].data == args.data.items.value[i]
    ensures forall i, j :: 0 <= i < |r| && 0 <= j < |r| && r[i] == r[j] ==> i == j
  {
    var data := Items(args.data);
    seq(|data|, i requires 0 <= i < |data| => Row(i, data[i]))
  }

  /** `{ ...DEFAULT_COLUMN_CONFIG, ...config }` */
  function WithDefaults(config: ColumnConfig): ColumnConfig {
    config.(fields := DefaultColumnConfig + config.fields)
  }

  /** `table.columns`: one column per configuration, in order, over the defaults. */
  function ColumnsOf(args: TableArgs): (r: seq<Column>)
    ensures (args.columns.NoSupplier? || args.columns.items.None?) ==> r == []
    ensures |r| == |Items(args.columns)|
    ensures forall i :: 0 <= i < |r| ==> r[i].config == WithDefaults(Items(args.columns)[i])
  {
    var configs := Items(args.columns);
    seq(|configs|, i requires 0 <= i < |configs| => Column(i, WithDefaults(configs[i])))
  }

  /**
   * A column's configuration keeps every user key and value; a key the user
   * did not give reads the default, and nothing else is added.
   */
  lemma WithDefaultsUserWins(config: ColumnConfig)
    ensures WithDefaults(config).key == config.key
    ensures WithDefaults(config).fields.Keys == config.fields.Keys + {"isVisible", "minWidth"}
    ensures forall k <- config.fields :: WithDefaults(config).fields[k] == config.fields[k]
    ensures "isVisible" !in config.fields ==> WithDefaults(config).fields["isVisible"] == Bool(true)
    ensures "minWidth" !in config.fields ==> WithDefaults(config).fields["minWidth"] == Num(128.0)
  {
  }

  // ---------------------------------------------------------------------
  // Getters

  /** `pagination?.totalItems ?? meta?.totalRowCount ?? rows.length` */
  function TotalRowCount(args: TableArgs): (r: Value)
    ensures !Nullish(r)
    ensures args.pagination.Some? && !Nullish(Get(args.pagination.value, "totalItems")) ==>
              r == Get(args.pagination.value, "totalItems")
    ensures (args.pagination.None? || Nullish(Get(args.pagination.value, "totalItems"))) &&
            args.meta.Some? && !Nullish(Get(args.meta.value, "totalRowCount")) ==>
              r == Get(args.meta.value, "totalRowCount")
    ensures (args.pagination.None? || Nullish(Get(args.pagination.value, "totalItems"))) &&
            (args.meta.None? || Nullish(Get(args.meta.value, "totalRowCount"))) ==>
              r == Num(|RowsOf(args)| as real)
  {
    var totalItems := if args.pagination.Some? then Get(args.pagination.value, "totalItems") else Undef;
    var metaCount := if args.meta.Some? then Get(args.meta.value, "totalRowCount") else Undef;
    Coalesce(totalItems, Coalesce(metaCount, Num(|RowsOf(args)| as real)))
  }

  /** `Boolean(rowSelection?.())` */
  function HasActiveRow(args: TableArgs): (r: bool)
    ensures r <==> args.rowSelection.Some? && Truthy(args.rowSelection.value)
  {
    args.rowSelection.Some? && ToBool(args.rowSelection.value)
  }

  /** `isCheckboxSelectable ?? Boolean(bulkSelection)` */
  function IsCheckboxSelectable(args: TableArgs): (r: Value)
    ensures !Nullish(r)
    ensures Nullish(args.isCheckboxSelectable) ==> r == Bool(Truthy(args.bulkSelection))
    ensures !Nullish(args.isCheckboxSelectable) ==> r == args.isCheckboxSelectable
  {
    Coalesce(args.isCheckboxSelectable, Bool(ToBool(args.bulkSelection)))
  }

  /** `isRowSelectable ?? Boolean(onRowSelectionChange)` */
  function IsRowSelectable(args: TableArgs): (r: Value)
    ensures !Nullish(r)
    ensures Nullish(args.isRowSelectable) ==> r == Bool(Truthy(args.onRowSelectionChange))
    ensures !Nullish(args.isRowSelectable) ==> r == args.isRowSelectable
  {
    Coalesce(args.isRowSelectable, Bool(ToBool(args.onRowSelectionChange)))
  }

  /** `Boolean(pagination)` */
  function IsPaginated(args: TableArgs): bool {
    args.pagination.Some?
  }

  /** `rowSelection ? new Set([rowSelection()]) : new Set()` */
  function RowSelection(args: TableArgs): (r: set<Value>)
    ensures |r| <= 1
    ensures forall v :: v in r <==> args.rowSelection == Some(v)
  {
    if args.rowSelection.Some? then {args.rowSelection.value} else {}
  }

  /** `pagination?.page` */
  function PageOf(args: TableArgs): Value {
    if args.pagination.Some? then Get(args.pagination.value, "page") else Undef
  }

  /** `key = guidFor(this)` when the `preferences` argument gives no key. */
  function PreferencesKey(args: TableArgs, guid: string): string {
    if args.preferences.Some? && args.preferences.value.key.Some? then args.preferences.value.key.value
    else guid
  }

  function AdapterOf(args: TableArgs): Option<Adapter> {
    if args.preferences.Some? then args.preferences.value.adapter else None
  }

  // ---------------------------------------------------------------------
  // The table object

  class Table {
    /** `args.named` */
    var args: TableArgs
    /** `preferences`, `undefined` until the first `modify` */
    var preferences: Option<TablePreferences>
    /** `#page`, the page seen at the previous `modify` */
    var page: Value
    /** How often `resetScrollContainer` was called. */
    var scrollResets: nat
    /** `guidFor(this)` */
    const guid: string

    constructor(guid: string, args: TableArgs)
      ensures this.guid == guid && this.args == args
      ensures preferences.None? && page == Undef && scrollResets == 0
    {
      this.guid := guid;
      this.args := args;
      preferences := None;
      page := Undef;
      scrollResets := 0;
    }

    /**
     * `modify(_, named)`: stores the arguments; creates the preferences
     * store on the first call only (which throws when the adapter's saved
     * document is malformed), and on later calls resets the scroll
     * position when the page changed.
     */
    method Modify(named: TableArgs) returns (r: Outcome)
      modifies this
      ensures args == named
      ensures old(preferences).Some? ==>
                r.Pass? && preferences == old(preferences) && page == PageOf(named) &&
                scrollResets == old(scrollResets) + (if PageOf(named) != old(page) then 1 else 0)
      ensures old(preferences).None? ==> page == old(page) && scrollResets == old(scrollResets)
      ensures old(preferences).None? && r.Pass? ==>
                preferences.Some? && fresh(preferences.value) && preferences.value.Valid() &&
                preferences.value.key == PreferencesKey(named, guid) &&
                preferences.value.adapter == AdapterOf(named)
      ensures old(preferences).None? && r.Fail? ==> preferences.None?
      ensures old(preferences).None? ==>
                (r.Fail? <==> AdapterOf(named).Some? && AdapterOf(named).value.restored.Some? &&
                              AdapterOf(named).value.restored.value.plugins.Some? &&
                              exists n | n in AdapterOf(named).value.restored.value.plugins.value ::
                                !Complete(AdapterOf(named).value.restored.value.plugins.value[n]))
    {
      args := named;
      if preferences.None? {
        var created := TablePreferences.Create(PreferencesKey(named, guid), AdapterOf(named));
        if created.Err? {
          return Fail(created.msg);
        }
        preferences := Some(created.value);
      } else {
        if PageOf(named) != page {
          scrollResets := scrollResets + 1;
        }
        page := PageOf(named);
      }
      r := Pass;
    }
  }

  /**
   * A second `modify` keeps the preferences store the first one created,
   * with the key the first arguments gave, whatever the second ones say.
   */
  method PreferencesCreatedOnce(t: Table, first: TableArgs, second: TableArgs)
    returns (r1: Outcome, r2: Outcome)
    requires t.preferences.None?
    modifies t
    ensures r1.Pass? ==>
              r2.Pass? && t.args == second && t.preferences.Some? &&
              t.preferences.value.key == PreferencesKey(first, t.guid) &&
              t.preferences.value.adapter == AdapterOf(first)
  {
    r1 := t.Modify(first);
    r2 := t.Modify(second);
  }
}
