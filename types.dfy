/**
 * The entities the plugin layer works on: plugin classes and plugin objects,
 * plugin instances, column configurations, columns and rows.
 */
module Types {
  import opened Wrappers
  import opened Values

  /** Identity of a plugin class (what `===` and `instanceof` compare). */
  type ClassId = nat

  /** Which metadata constructors a plugin's `meta` object declares. */
  datatype MetaCtors = MetaCtors(table: bool, column: bool, row: bool)

  /**
   * An options thunk `() => options`: `NoThunk` when the slot holds no
   * function, otherwise what calling it returns (`None`: `undefined`/`null`).
   */
  datatype Thunk = NoThunk | Thunk(result: Option<Record>)

  /** One `[PluginClass, () => columnOptions]` entry of a column's `pluginOptions`. */
  datatype ColumnPluginOption = ColumnPluginOption(cls: ClassId, thunk: Thunk)

  /**
   * A column configuration as handed to the table: its `key`, every other
   * plain field (`name`, `Cell`, `isVisible`, `minWidth`, ...) as a record,
   * whether `value` and `options` functions are given, and `pluginOptions`.
   */
  datatype ColumnConfig = ColumnConfig(
    key: string,
    fields: Record,
    hasValue: bool,
    hasOptions: bool,
    pluginOptions: Option<seq<ColumnPluginOption>>)

  /** A column object: `id` stands for its object identity. */
  datatype Column = Column(id: nat, config: ColumnConfig)

  /** A row object: `id` stands for its object identity. */
  datatype Row = Row(id: nat, data: Value)

  /**
   * What a plugin instance (or plugin object) exposes: `name`, its own
   * `features`/`requires` properties (`requirements` here), `meta` and an optional `columns` list.
   */
  datatype PluginShape = PluginShape(
    name: string,
    features: Option<seq<string>>,
    requirements: Option<seq<string>>,
    meta: Option<MetaCtors>,
    columns: Option<seq<Column>>)

  /**
   * A plugin class: its identity, `Function.name`, the static `features` and
   * `requires`, and the shape of the instances its constructor produces.
   */
  datatype PluginClass = PluginClass(
    id: ClassId,
    className: string,
    features: Option<seq<string>>,
    requirements: Option<seq<string>>,
    proto: PluginShape)

  /**
   * A plugin given as an object: `ctor` is its `constructor`, with that
   * constructor's name and static `features`.
   */
  datatype PluginObject = PluginObject(
    ctor: ClassId,
    ctorName: string,
    ctorFeatures: Option<seq<string>>,
    shape: PluginShape)

  /** A plugin as it may appear in a table's `plugins` configuration. */
  datatype PluginRef = ClassRef(c: PluginClass) | ObjectRef(o: PluginObject)

  /**
   * A plugin as held by `table.plugins`: the identity and name of its
   * constructor, the constructor's static `features`, and its own shape.
   */
  datatype Plugin = Plugin(
    ctor: ClassId,
    ctorName: string,
    staticFeatures: Option<seq<string>>,
    shape: PluginShape)

  /** `plugin instanceof klass` (class identity; subclassing is not modelled). */
  predicate InstanceOf(p: Plugin, klass: ClassId) {
    p.ctor == klass
  }

  /** `column.key` */
  function ColumnKey(c: Column): string {
    c.config.key
  }
}
