/**
 * The plugin utilities every plugin builds on: finding plugins by class or
 * by feature, the column list a plugin should see, neighbours of a column in
 * that list, and the options a user passed for a plugin.
 */
module Base {
  import opened Wrappers
  import opened Values
  import opened Types
  import opened Strings
  import opened PluginConfig

  // ---------------------------------------------------------------------
  // Finding plugins

  /** `plugin.features || plugin.constructor.features` */
  function FeaturesOf(p: Plugin): Option<seq<string>> {
    if p.shape.features.Some? then p.shape.features else p.staticFeatures
  }

  /** `features?.includes(featureName)` */
  predicate Provides(p: Plugin, feature: string) {
    FeaturesOf(p).Some? && feature in FeaturesOf(p).value
  }

  /** `findPlugin`: the first plugin providing `feature`. */
  function FindPlugin(plugins: seq<Plugin>, feature: string): (r: Option<Plugin>)
    ensures r.None? <==> forall p <- plugins :: !Provides(p, feature)
    ensures r.Some? ==> exists i :: 0 <= i < |plugins| && plugins[i] == r.value &&
                          Provides(r.value, feature) &&
                          forall j :: 0 <= j < i ==> !Provides(plugins[j], feature)
  {
    if plugins == [] then None
    else if Provides(plugins[0], feature) then Some(plugins[0])
    else
      var r := FindPlugin(plugins[1..], feature);
      assert r.Some? ==> exists i :: 1 <= i < |plugins| && plugins[i] == r.value &&
                          Provides(r.value, feature) &&
                          forall j :: 0 <= j < i ==> !Provides(plugins[j], feature) by {
        if r.Some? {
          var i :| 0 <= i < |plugins[1..]| && plugins[1..][i] == r.value &&
                   Provides(r.value, feature) &&
                   forall j :: 0 <= j < i ==> !Provides(plugins[1..][j], feature);
          assert plugins[i + 1] == r.value;
          assert forall j :: 1 <= j < i + 1 ==> plugins[j] == plugins[1..][j - 1];
        }
      }
      r
  }

  /** Every feature named by the plugins, in order, with empty names dropped. */
  function AllFeatures(plugins: seq<Plugin>): (r: seq<string>)
    ensures forall x :: x in r <==> x != "" && exists p <- plugins :: Provides(p, x)
  {
    if plugins == [] then []
    else
      var own := if FeaturesOf(plugins[0]).Some? then FeaturesOf(plugins[0]).value else [];
      var r := Filter(own) + AllFeatures(plugins[1..]);
      assert forall x :: Provides(plugins[0], x) <==> x in own;
      assert forall x :: x in AllFeatures(plugins[1..]) <==>
        x != "" && exists p <- plugins[1..] :: Provides(p, x);
      assert forall p :: p in plugins <==> p == plugins[0] || p in plugins[1..];
      r
  }

  /** The feature names one plugin declares, its own `features` else its class's. */
  function OwnFeatures(p: Plugin): seq<string> {
    if FeaturesOf(p).Some? then FeaturesOf(p).value else []
  }

  /**
   * `AllFeatures` keeps one entry per declared non-empty name, plugin by
   * plugin and in each plugin's order: one plugin contributes its filtered
   * names, and a list of plugins the concatenation of its parts'.
   */
  lemma {:induction false} AllFeaturesAppend(a: seq<Plugin>, b: seq<Plugin>)
    ensures AllFeatures(a + b) == AllFeatures(a) + AllFeatures(b)
    ensures |a| == 1 ==> AllFeatures(a) == Filter(OwnFeatures(a[0]))
  {
    if a == [] {
      assert a + b == b;
    } else {
      assert (a + b)[1..] == a[1..] + b;
      assert (a + b)[0] == a[0];
      AllFeaturesAppend(a[1..], b);
      if |a| == 1 {
        assert a[1..] == [];
      }
    }
  }

  /** `.filter(Boolean)` on feature names. */
  function Filter(xs: seq<string>): (r: seq<string>)
    ensures forall x :: x in r <==> x in xs && x != ""
  {
    if xs == [] then []
    else (if xs[0] != "" then [xs[0]] else []) + Filter(xs[1..])
  }
  /** The filter keeps the surviving names in order: it works name by name. */
  lemma {:induction false} FilterAppend(xs: seq<string>, ys: seq<string>)
    ensures Filter(xs + ys) == Filter(xs) + Filter(ys)
    ensures |xs| == 1 ==> Filter(xs) == (if xs[0] != "" then xs else [])
  {
    if xs == [] {
      assert xs + ys == ys;
    } else {
      assert (xs + ys)[1..] == xs[1..] + ys;
      assert (xs + ys)[0] == xs[0];
      FilterAppend(xs[1..], ys);
      if |xs| == 1 {
        assert xs[1..] == [];
        assert xs == [xs[0]];
      }
    }
  }


  /** `availableFeatures`: the features joined by ", ", or "[none]". */
  function AvailableFeatures(plugins: seq<Plugin>): (r: string)
    ensures (forall p <- plugins, x | Provides(p, x) :: x == "") ==> r == "[none]"
    ensures (exists p <- plugins, x | Provides(p, x) :: x != "") ==> r == Join(AllFeatures(plugins), ", ")
  {
    var all := AllFeatures(plugins);
    assert |all| > 0 ==> all[0] in all;
    if |all| > 0 then Join(all, ", ") else "[none]"
  }

  /** `table.pluginOf(klass)`: the first plugin that is an instance of `klass`. */
  function PluginOf(plugins: seq<Plugin>, klass: ClassId): (r: Option<Plugin>)
    ensures r.None? <==> forall p <- plugins :: !InstanceOf(p, klass)
    ensures r.Some? ==> r.value in plugins && InstanceOf(r.value, klass)
  {
    if plugins == [] then None
    else if InstanceOf(plugins[0], klass) then Some(plugins[0])
    else PluginOf(plugins[1..], klass)
  }

  /** `pluginOf` finds the first instance: no plugin before it is an instance of the class. */
  lemma {:induction false} PluginOfFirst(plugins: seq<Plugin>, klass: ClassId)
    ensures PluginOf(plugins, klass).Some? ==>
              exists i :: 0 <= i < |plugins| && plugins[i] == PluginOf(plugins, klass).value &&
                forall j :: 0 <= j < i ==> !InstanceOf(plugins[j], klass)
  {
    if plugins != [] {
      if InstanceOf(plugins[0], klass) {
        assert plugins[0] == PluginOf(plugins, klass).value;
      } else {
        var rest := plugins[1..];
        PluginOfFirst(rest, klass);
        assert PluginOf(plugins, klass) == PluginOf(rest, klass);
        if PluginOf(rest, klass).Some? {
          var i :| 0 <= i < |rest| && rest[i] == PluginOf(rest, klass).value &&
                   forall j :: 0 <= j < i ==> !InstanceOf(rest[j], klass);
          assert plugins[i + 1] == rest[i];
          forall j | 0 <= j < i + 1
            ensures !InstanceOf(plugins[j], klass)
          {
            if j > 0 {
              assert plugins[j] == rest[j - 1];
            }
          }
        }
      }
    }
  }


  /** `hasPlugin(table, klass)` */
  function HasPlugin(plugins: seq<Plugin>, klass: ClassId): (r: bool)
    ensures r <==> exists p <- plugins :: p.ctor == klass
  {
    PluginOf(plugins, klass).Some?
  }

  // ---------------------------------------------------------------------
  // The column list a plugin sees

  function InvalidColumnsMessage(p: Plugin): string {
    "<#" + p.shape.name + "> defined a 'columns' property, but did not return valid data."
  }

  function NotUsedMessage(requester: PluginClass): string {
    "[" + requester.className + "] requested columns from the table, but the plugin, " +
    requester.className + ", is not used in this table"
  }

  /** A plugin's own `columns`, which must be an array. */
  function ColumnsOf(p: Plugin): (r: Result<seq<Column>>)
    ensures r.Ok? <==> p.shape.columns.Some?
    ensures r.Ok? ==> r.value == p.shape.columns.value
    ensures r.Err? ==> r.msg == InvalidColumnsMessage(p)
  {
    if p.shape.columns.Some? then Ok(p.shape.columns.value) else Err(InvalidColumnsMessage(p))
  }

  /** The feature tags `columnsFor` looks plugins up by. */
  const VisibilityFeature := "columnVisibility"
  const OrderFeature := "columnOrder"
  const SizingFeature := "columnResizing"

  /**
   * The chain for a requester without special treatment, or for none: the
   * column-order provider's columns, else the column-visibility provider's,
   * else the column-resizing provider's, else the table's own; the chosen
   * provider fails when it has no `columns`.
   */
  function Hierarchy(plugins: seq<Plugin>, tableColumns: seq<Column>): (r: Result<seq<Column>>)
    ensures var o := FindPlugin(plugins, OrderFeature);
            o.Some? ==> r == ColumnsOf(o.value)
    ensures var o := FindPlugin(plugins, OrderFeature);
            var v := FindPlugin(plugins, VisibilityFeature);
            o.None? && v.Some? ==> r == ColumnsOf(v.value)
    ensures var o := FindPlugin(plugins, OrderFeature);
            var v := FindPlugin(plugins, VisibilityFeature);
            var s := FindPlugin(plugins, SizingFeature);
            o.None? && v.None? && s.Some? ==> r == ColumnsOf(s.value)
    ensures (forall p <- plugins :: !Provides(p, VisibilityFeature) && !Provides(p, OrderFeature) &&
                                    !Provides(p, SizingFeature)) ==> r == Ok(tableColumns)
    ensures r.Err? ==> exists p <- plugins :: p.shape.columns.None? && r.msg == InvalidColumnsMessage(p)
  {
    var visibility := FindPlugin(plugins, VisibilityFeature);
    var reordering := FindPlugin(plugins, OrderFeature);
    var sizing := FindPlugin(plugins, SizingFeature);
    if reordering.Some? then ColumnsOf(reordering.value)
    else if visibility.Some? then ColumnsOf(visibility.value)
    else if sizing.Some? then ColumnsOf(sizing.value)
    else Ok(tableColumns)
  }

  /**
   * `columns.for(table, requester?)`: without a requester, the chain; a
   * requester that is not one of the table's plugins fails; the first
   * column-resizing or column-visibility provider sees the table's columns;
   * the first column-order provider sees the visibility provider's columns,
   * or the table's without one; any other requester sees the chain.
   */
  function ColumnsFor(plugins: seq<Plugin>, tableColumns: seq<Column>, requester: Option<PluginClass>)
    : (r: Result<seq<Column>>)
    ensures requester.None? ==> r == Hierarchy(plugins, tableColumns)
    ensures requester.Some? && !HasPlugin(plugins, requester.value.id) ==>
              r == Err(NotUsedMessage(requester.value))
    ensures var s := FindPlugin(plugins, SizingFeature);
            var v := FindPlugin(plugins, VisibilityFeature);
            requester.Some? && HasPlugin(plugins, requester.value.id) &&
            ((s.Some? && s.value.ctor == requester.value.id) || (v.Some? && v.value.ctor == requester.value.id)) ==>
              r == Ok(tableColumns)
    ensures var s := FindPlugin(plugins, SizingFeature);
            var v := FindPlugin(plugins, VisibilityFeature);
            var o := FindPlugin(plugins, OrderFeature);
            requester.Some? && HasPlugin(plugins, requester.value.id) &&
            !(s.Some? && s.value.ctor == requester.value.id) && !(v.Some? && v.value.ctor == requester.value.id) &&
            o.Some? && o.value.ctor == requester.value.id ==>
              r == (if v.Some? then ColumnsOf(v.value) else Ok(tableColumns))
    ensures var s := FindPlugin(plugins, SizingFeature);
            var v := FindPlugin(plugins, VisibilityFeature);
            var o := FindPlugin(plugins, OrderFeature);
            requester.Some? && HasPlugin(plugins, requester.value.id) &&
            !(s.Some? && s.value.ctor == requester.value.id) && !(v.Some? && v.value.ctor == requester.value.id) &&
            !(o.Some? && o.value.ctor == requester.value.id) ==>
              r == Hierarchy(plugins, tableColumns)
    ensures r.Err? ==> (requester.Some? && r.msg == NotUsedMessage(requester.value)) ||
                       exists p <- plugins :: p.shape.columns.None? && r.msg == InvalidColumnsMessage(p)
  {
    var visibility := FindPlugin(plugins, VisibilityFeature);
    var reordering := FindPlugin(plugins, OrderFeature);
    var sizing := FindPlugin(plugins, SizingFeature);
    match requester
    case None => Hierarchy(plugins, tableColumns)
    case Some(req) =>
      if !HasPlugin(plugins, req.id) then Err(NotUsedMessage(req))
      else if sizing.Some? && sizing.value.ctor == req.id then Ok(tableColumns)
      else if visibility.Some? && visibility.value.ctor == req.id then Ok(tableColumns)
      else if reordering.Some? && reordering.value.ctor == req.id then
        (if visibility.Some? then ColumnsOf(visibility.value) else Ok(tableColumns))
      else Hierarchy(plugins, tableColumns)
  }

  /**
   * The hierarchy: the column-resizing and column-visibility providers see
   * the table's own columns, the column-order provider sees what visibility
   * hands out, and everybody else sees the outermost list; without any of
   * these plugins, every caller sees the table's columns.
   */
  lemma ColumnsForHierarchy(plugins: seq<Plugin>, tableColumns: seq<Column>, req: PluginClass)
    requires HasPlugin(plugins, req.id)
    ensures var s := FindPlugin(plugins, SizingFeature);
            s.Some? && s.value.ctor == req.id ==> ColumnsFor(plugins, tableColumns, Some(req)) == Ok(tableColumns)
    ensures var v := FindPlugin(plugins, VisibilityFeature);
            v.Some? && v.value.ctor == req.id ==> ColumnsFor(plugins, tableColumns, Some(req)) == Ok(tableColumns)
    ensures var v := FindPlugin(plugins, VisibilityFeature);
            var o := FindPlugin(plugins, OrderFeature);
            var s := FindPlugin(plugins, SizingFeature);
            o.Some? && o.value.ctor == req.id && !(s.Some? && s.value.ctor == req.id) &&
            !(v.Some? && v.value.ctor == req.id) && v.Some? && v.value.shape.columns.Some? ==>
              ColumnsFor(plugins, tableColumns, Some(req)) == Ok(v.value.shape.columns.value)
    ensures (forall p <- plugins :: !Provides(p, VisibilityFeature) && !Provides(p, OrderFeature) &&
                                    !Provides(p, SizingFeature)) ==>
              ColumnsFor(plugins, tableColumns, Some(req)) == Ok(tableColumns) &&
              ColumnsFor(plugins, tableColumns, None) == Ok(tableColumns)
  {
  }

  /** A requester that is not one of the table's plugins is refused. */
  lemma ColumnsForUnusedRequester(plugins: seq<Plugin>, tableColumns: seq<Column>, req: PluginClass)
    requires forall p <- plugins :: p.ctor != req.id
    ensures ColumnsFor(plugins, tableColumns, Some(req)) == Err(NotUsedMessage(req))
  {
  }

  // ---------------------------------------------------------------------
  // Neighbours of a column

  /** `Array.prototype.indexOf` (identity comparison). */
  function IndexOf<T(==)>(cols: seq<T>, c: T): (i: int)
    ensures -1 <= i < |cols|
    ensures i >= 0 ==> cols[i] == c && c !in cols[..i]
    ensures i < 0 <==> c !in cols
  {
    if cols == [] then -1
    else if cols[0] == c then 0
    else
      var i := IndexOf(cols[1..], c);
      assert i >= 0 ==> cols[1..][..i] == cols[1..i + 1];
      if i < 0 then -1 else i + 1
  }

  /** A JavaScript `slice` bound: negative counts from the end, then clamped. */
  function SliceBound(len: nat, k: int): (r: nat)
    ensures r <= len
  {
    if k < 0 then (if len + k < 0 then 0 else len + k)
    else if k > len then len else k
  }

  /** `Array.prototype.slice(start, end)` */
  function Slice<T>(cols: seq<T>, start: int, end: int): seq<T> {
    var s := SliceBound(|cols|, start);
    var e := SliceBound(|cols|, end);
    if s <= e then cols[s..e] else []
  }

  const NotInTableMessage := "index of reference column must be >= 0. column likely not a part of the table"

  /** `columns.next` on a resolved column list. */
  function Next<T(==)>(cols: seq<T>, current: T): (r: Result<Option<T>>)
    ensures r.Err? <==> current !in cols
  {
    var i := IndexOf(cols, current);
    if i < 0 then Err(NotInTableMessage)
    else if i >= |cols| - 1 then Ok(None)
    else Ok(Some(cols[i + 1]))
  }

  /** `columns.previous` on a resolved column list. */
  function Previous<T(==)>(cols: seq<T>, current: T): (r: Result<Option<T>>)
    ensures r.Err? <==> current !in cols
  {
    var i := IndexOf(cols, current);
    if i < 0 then Err(NotInTableMessage)
    else if i == 0 then Ok(None)
    else Ok(Some(cols[i - 1]))
  }

  /** `columns.before` on a resolved column list. */
  function Before<T(==)>(cols: seq<T>, current: T): (r: seq<T>)
    ensures current in cols ==> r == cols[..IndexOf(cols, current)] && current !in r
    ensures current !in cols ==> r == (if cols == [] then [] else cols[..|cols| - 1])
  {
    Slice(cols, 0, IndexOf(cols, current))
  }

  /** `columns.after` on a resolved column list. */
  function After<T(==)>(cols: seq<T>, current: T): (r: seq<T>)
    ensures current in cols ==> r == cols[IndexOf(cols, current) + 1..]
    ensures current !in cols ==> r == cols
  {
    Slice(cols, IndexOf(cols, current) + 1, |cols|)
  }

  /** For a column of the list, `before` and `after` are the plain slices around its index. */
  lemma BeforeAfterSlices<T>(cols: seq<T>, current: T)
    requires current in cols
    ensures Before(cols, current) == cols[..IndexOf(cols, current)]
    ensures After(cols, current) == cols[IndexOf(cols, current) + 1..]
  {
    var i := IndexOf(cols, current);
    assert SliceBound(|cols|, 0) == 0 && SliceBound(|cols|, i) == i;
    assert SliceBound(|cols|, i + 1) == i + 1 && SliceBound(|cols|, |cols|) == |cols|;
  }

  /**
   * For a column of the list, the columns before it, the column and the
   * columns after it make up the whole list, and the column's neighbours are
   * the last column before it and the first one after it.
   */
  lemma NeighboursPartition<T>(cols: seq<T>, current: T)
    requires current in cols
    ensures Before(cols, current) + [current] + After(cols, current) == cols
    ensures current !in Before(cols, current)
    ensures Next(cols, current) ==
      Ok(if After(cols, current) == [] then None else Some(After(cols, current)[0]))
    ensures Previous(cols, current) ==
      Ok(if Before(cols, current) == [] then None
         else Some(Before(cols, current)[|Before(cols, current)| - 1]))
  {
    var i := IndexOf(cols, current);
    BeforeAfterSlices(cols, current);
    assert cols == cols[..i] + [cols[i]] + cols[i + 1..];
  }

  /** In a list without repeats, `next` and `previous` undo each other. */
  lemma NextPreviousInverse<T>(cols: seq<T>, c: T, d: T)
    requires forall i, j :: 0 <= i < j < |cols| ==> cols[i] != cols[j]
    requires Next(cols, c) == Ok(Some(d))
    ensures Previous(cols, d) == Ok(Some(c))
  {
    var i := IndexOf(cols, c);
    var k := IndexOf(cols, d);
    assert cols[i + 1] == d;
    assert k == i + 1;
  }

  /**
   * `before` and `after` do not check that the column is in the list: for a
   * column that is not, `before` drops the last column and `after` returns
   * every column.
   */
  lemma NeighboursOfAbsentColumn<T>(cols: seq<T>, current: T)
    requires current !in cols
    ensures Before(cols, current) == (if cols == [] then [] else cols[..|cols| - 1])
    ensures After(cols, current) == cols
  {
  }

  // ---------------------------------------------------------------------
  // Options

  const NotConstructibleCall := "Class constructor cannot be invoked without 'new'"
  const NotAFunction := "fn is not a function"

  /** `fn() ?? {}` for the options slot of a tuple. */
  function CallOptions(fn: Slot): Result<Record> {
    match fn
    case ThunkSlot(res) => Ok(if res.Some? then res.value else map[])
    case PluginSlot(ClassRef(_)) => Err(NotConstructibleCall)
    case PluginSlot(ObjectRef(_)) => Err(NotAFunction)
    case OtherSlot => Err(NotAFunction)
  }

  predicate HeadIs(t: PluginTuple, klass: ClassId) {
    t.head.PluginSlot? && t.head.p.ClassRef? && t.head.p.c.id == klass
  }

  /** `normalized.find((option) => option[0] === klass)` */
  function FindTuple(ts: seq<PluginTuple>, klass: ClassId): (r: Option<PluginTuple>)
    ensures r.None? <==> forall t <- ts :: !HeadIs(t, klass)
    ensures r.Some? ==> exists i :: 0 <= i < |ts| && ts[i] == r.value && HeadIs(r.value, klass) &&
                          forall j :: 0 <= j < i ==> !HeadIs(ts[j], klass)
  {
    if ts == [] then None
    else if HeadIs(ts[0], klass) then Some(ts[0])
    else
      var r := FindTuple(ts[1..], klass);
      assert r.Some? ==> exists i :: 1 <= i < |ts| && ts[i] == r.value && HeadIs(r.value, klass) &&
                          forall j :: 0 <= j < i ==> !HeadIs(ts[j], klass) by {
        if r.Some? {
          var i :| 0 <= i < |ts[1..]| && ts[1..][i] == r.value && HeadIs(r.value, klass) &&
                   forall j :: 0 <= j < i ==> !HeadIs(ts[1..][j], klass);
          assert ts[i + 1] == r.value;
          assert forall j :: 1 <= j < i + 1 ==> ts[j] == ts[1..][j - 1];
        }
      }
      r
  }

  /** `options.forTable(table, klass)` */
  function OptionsForTable(config: Option<seq<Entry>>, klass: ClassId): Result<Record> {
    match Normalized(config)
    case Err(msg) => Err(msg)
    case Ok(ts) =>
      match FindTuple(ts, klass)
      case None => Ok(map[])
      case Some(t) => CallOptions(t.options)
  }

  /** Whether an entry of the configuration names `klass` first. */
  predicate EntryFor(e: Entry, klass: ClassId) {
    var h := EntryHead(e);
    h.PluginSlot? && h.p.ClassRef? && h.p.c.id == klass
  }

  /**
   * The table options of a plugin are what the options thunk of the first
   * configuration entry naming it returns (`{}` for `undefined`/`null`), and
   * `{}` when the entry has no thunk or no entry names it.
   */
  lemma {:induction false} OptionsForTableFromEntries(es: seq<Entry>, klass: ClassId)
    requires forall e <- es :: AcceptedEntry(e)
    ensures (forall e <- es :: !EntryFor(e, klass)) ==> OptionsForTable(Some(es), klass) == Ok(map[])
    ensures forall i :: 0 <= i < |es| && EntryFor(es[i], klass) &&
                        (forall j :: 0 <= j < i ==> !EntryFor(es[j], klass)) ==>
              OptionsForTable(Some(es), klass) ==
                (if es[i].ArrayEntry? && |es[i].slots| == 2 then CallOptions(es[i].slots[1])
                 else Ok(map[]))
  {
    NormalizedCharacterized(es);
    var ts := Normalized(Some(es)).value;
    assert forall i :: 0 <= i < |es| ==> (HeadIs(ts[i], klass) <==> EntryFor(es[i], klass));
    forall i | 0 <= i < |es| && EntryFor(es[i], klass) &&
               (forall j :: 0 <= j < i ==> !EntryFor(es[j], klass))
      ensures OptionsForTable(Some(es), klass) ==
                (if es[i].ArrayEntry? && |es[i].slots| == 2 then CallOptions(es[i].slots[1])
                 else Ok(map[]))
    {
      var t := FindTuple(ts, klass);
      var k :| 0 <= k < |ts| && ts[k] == t.value && HeadIs(t.value, klass) &&
               forall j :: 0 <= j < k ==> !HeadIs(ts[j], klass);
      assert HeadIs(ts[i], klass);
      assert forall j :: 0 <= j < i ==> !HeadIs(ts[j], klass);
      assert k == i;
      assert ts[i] == NormalizeEntry(es[i]);
      assert OptionsForTable(Some(es), klass) == CallOptions(ts[i].options);
      assert CallOptions(DefaultOptions) == Ok(map[]);
    }
    if forall e <- es :: !EntryFor(e, klass) {
      assert forall t <- ts :: !HeadIs(t, klass);
    }
  }

  /** `column.config.pluginOptions?.find((option) => option[0] === klass)` */
  function FindColumnOption(opts: seq<ColumnPluginOption>, klass: ClassId): (r: Option<ColumnPluginOption>)
    ensures r.None? <==> forall o <- opts :: o.cls != klass
    ensures r.Some? ==> r.value in opts && r.value.cls == klass
  {
    if opts == [] then None
    else if opts[0].cls == klass then Some(opts[0])
    else FindColumnOption(opts[1..], klass)
  }

  /** `options.forColumn(column, klass)` */
  function OptionsForColumn(column: Column, klass: ClassId): (r: Record)
    ensures column.config.pluginOptions.None? ==> r == map[]
    ensures (column.config.pluginOptions.Some? &&
             forall o <- column.config.pluginOptions.value :: o.cls != klass) ==> r == map[]
  {
    match column.config.pluginOptions
    case None => map[]
    case Some(opts) =>
      match FindColumnOption(opts, klass)
      case None => map[]
      case Some(o) =>
        match o.thunk
        case NoThunk => map[]
        case Thunk(res) => if res.Some? then res.value else map[]
  }

  /** The column options of a plugin come from the first matching entry's thunk. */
  lemma {:induction false} OptionsForColumnFirstEntry(column: Column, klass: ClassId, i: nat)
    requires column.config.pluginOptions.Some?
    requires var opts := column.config.pluginOptions.value;
             i < |opts| && opts[i].cls == klass && forall j :: 0 <= j < i ==> opts[j].cls != klass
    ensures var o := column.config.pluginOptions.value[i];
            OptionsForColumn(column, klass) ==
              (if o.thunk.Thunk? && o.thunk.result.Some? then o.thunk.result.value else map[])
  {
    FirstColumnOption(column.config.pluginOptions.value, klass, i);
  }

  lemma {:induction false} FirstColumnOption(opts: seq<ColumnPluginOption>, klass: ClassId, i: nat)
    requires i < |opts| && opts[i].cls == klass && forall j :: 0 <= j < i ==> opts[j].cls != klass
    ensures FindColumnOption(opts, klass) == Some(opts[i])
  {
    if i > 0 {
      FirstColumnOption(opts[1..], klass, i - 1);
    }
  }
}
