/**
 * A column of the table: its configuration getters, the value it shows for
 * a row, and the per-row options with their `'--'` default.
 */
module ColumnModel {
  import opened Wrappers
  import opened Values
  import opened Types

  /** `DEFAULT_VALUE` */
  const DefaultValue := Str("--")
  /** `DEFAULT_VALUE_KEY` */
  const DefaultValueKey := "defaultValue"
  /** `DEFAULT_OPTIONS` */
  const DefaultOptions: Record := map[DefaultValueKey := DefaultValue]

  /**
   * The functions a column's configuration and the framework supply, given
   * as parameters: `config.value`, `config.options` (`None`: the function
   * is absent or returns nothing to spread), Ember's `get` with a property
   * path, and Ember's `isEmpty`.
   */
  datatype Env = Env(
    value: (Column, Row) -> Value,
    options: (Column, Row) -> Option<Record>,
    getPath: (Value, string) -> Value,
    isEmpty: Value -> bool)

  /** `column.name`: the configured `name`, `undefined` when there is none. */
  function Name(c: Column): (r: Value)
    ensures "name" in c.config.fields ==> r == c.config.fields["name"]
    ensures "name" !in c.config.fields ==> r.Undef?
  {
    Get(c.config.fields, "name")
  }

  /** `column.Cell`: the configured `Cell`, `undefined` when there is none. */
  function Cell(c: Column): (r: Value)
    ensures "Cell" in c.config.fields ==> r == c.config.fields["Cell"]
    ensures "Cell" !in c.config.fields ==> r.Undef?
  {
    Get(c.config.fields, "Cell")
  }

  /** `getOptionsForRow(row)`: `{ ...DEFAULT_OPTIONS, ...config.options?.(...) }` */
  function OptionsForRow(env: Env, c: Column, row: Row): (r: Record)
    ensures DefaultValueKey in r
    ensures !c.config.hasOptions || env.options(c, row).None? ==> r == DefaultOptions
    ensures c.config.hasOptions && env.options(c, row).Some? ==>
              r.Keys == env.options(c, row).value.Keys + {DefaultValueKey} &&
              (forall k <- env.options(c, row).value :: r[k] == env.options(c, row).value[k]) &&
              (DefaultValueKey !in env.options(c, row).value ==> r[DefaultValueKey] == DefaultValue)
  {
    var given := if c.config.hasOptions && env.options(c, row).Some? then env.options(c, row).value else map[];
    DefaultOptions + given
  }

  /** `getDefaultValue(row)`: the row's `defaultValue` option. */
  function DefaultValueFor(env: Env, c: Column, row: Row): (r: Value)
    ensures (!c.config.hasOptions || env.options(c, row).None? ||
             DefaultValueKey !in env.options(c, row).value) ==> r == DefaultValue
    ensures c.config.hasOptions && env.options(c, row).Some? &&
            DefaultValueKey in env.options(c, row).value ==>
              r == env.options(c, row).value[DefaultValueKey]
  {
    OptionsForRow(env, c, row)[DefaultValueKey]
  }

  /**
   * `getValueForRow(row)`: the `value` function's result when there is one;
   * otherwise the row data at the column's key, or the default value when
   * that is empty.
   */
  function ValueForRow(env: Env, c: Column, row: Row): (r: Value)
    ensures c.config.hasValue ==> r == env.value(c, row)
    ensures !c.config.hasValue && !env.isEmpty(env.getPath(row.data, ColumnKey(c))) ==>
              r == env.getPath(row.data, ColumnKey(c))
    ensures !c.config.hasValue && env.isEmpty(env.getPath(row.data, ColumnKey(c))) ==>
              r == DefaultValueFor(env, c, row)
  {
    if c.config.hasValue then env.value(c, row)
    else
      var v := env.getPath(row.data, ColumnKey(c));
      if env.isEmpty(v) then DefaultValueFor(env, c, row) else v
  }

  /**
   * Without a `value` function and without a `defaultValue` option, an
   * empty cell shows `'--'`.
   */
  lemma EmptyCellShowsDash(env: Env, c: Column, row: Row)
    requires !c.config.hasValue && env.isEmpty(env.getPath(row.data, ColumnKey(c)))
    requires !c.config.hasOptions || env.options(c, row).None? ||
             DefaultValueKey !in env.options(c, row).value
    ensures ValueForRow(env, c, row) == Str("--")
  {
  }

  /** A column with a `value` function never consults the row data or the options. */
  lemma ValueFunctionWins(env: Env, env': Env, c: Column, row: Row)
    requires c.config.hasValue && env.value == env'.value
    ensures ValueForRow(env, c, row) == ValueForRow(env', c, row)
  {
  }
}
