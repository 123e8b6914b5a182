/**
 * The row-selection plugin: the options check its constructor makes, the
 * selection it reads from the options, whether a row is selected, and the
 * call `select`, `deselect` and `toggle` make to the host's `onSelect` or
 * `onDeselect`. The plugin keeps no state of its own: a call to a
 * callback is modelled as the event it returns, and the host that owns the
 * selection applies it.
 */
module RowSelection {
  import opened Wrappers
  import opened Values
  import opened Types

  /** `selection`: a `Set`, or an array the plugin turns into one. */
  datatype Selection = SetOf(items: set<Value>) | ArrayOf(elements: seq<Value>)

  /**
   * The plugin's options: `selection` (`None` when absent), the `key`
   * function if one is given, and whether `onSelect` and `onDeselect` are
   * given.
   */
  datatype SelectionOptions = SelectionOptions(
    selection: Option<Selection>,
    key: Option<Value -> Value>,
    hasOnSelect: bool,
    hasOnDeselect: bool)

  const MissingOptionsMessage :=
    "selection, onSelect, and onDeselect are all required arguments for the RowSelection plugin. " +
    "Specify these options via `RowSelection.with(() => ({ selection, onSelect, onDeselect }))`"

  const NoSelectionMessage := "Cannot access selection because it is undefined"

  /** The constructor's `assert`: `selection`, `onSelect` and `onDeselect` must all be given. */
  function Construct(options: SelectionOptions): (r: Outcome)
    ensures r.Pass? <==> options.selection.Some? && options.hasOnSelect && options.hasOnDeselect
    ensures r.Fail? ==> r.msg == MissingOptionsMessage
  {
    if options.selection.Some? && options.hasOnSelect && options.hasOnDeselect then Pass
    else Fail(MissingOptionsMessage)
  }

  /** `TableMeta.selection`: the given set, or a set of the array's elements. */
  function SelectionSet(options: SelectionOptions): (r: Result<set<Value>>)
    ensures r.Err? <==> options.selection.None?
    ensures r.Err? ==> r.msg == NoSelectionMessage
    ensures r.Ok? && options.selection.value.SetOf? ==> r.value == options.selection.value.items
    ensures r.Ok? && options.selection.value.ArrayOf? ==>
              forall v :: v in r.value <==> v in options.selection.value.elements
  {
    match options.selection
    case None => Err(NoSelectionMessage)
    case Some(SetOf(items)) => Ok(items)
    case Some(ArrayOf(elements)) => Ok(set v | v in elements)
  }

  /** What stands for a row's data in the selection: `key(data)`, or the data itself. */
  function Identity(options: SelectionOptions, data: Value): Value {
    if options.key.Some? then options.key.value(data) else data
  }

  /** `RowMeta.isSelected`: the row's identity is in the selection. */
  function IsSelected(options: SelectionOptions, data: Value): (r: Result<bool>)
    ensures r.Err? <==> options.selection.None?
    ensures r.Ok? && options.key.None? ==> (r.value <==> data in SelectionSet(options).value)
    ensures r.Ok? && options.key.Some? ==> (r.value <==> options.key.value(data) in SelectionSet(options).value)
  {
    match SelectionSet(options)
    case Err(msg) => Err(msg)
    case Ok(s) => Ok(Identity(options, data) in s)
  }

  /** A call to `onSelect` or `onDeselect`, with the item and the row it is given. */
  datatype Event = Selected(item: Value, row: Row) | Deselected(item: Value, row: Row)

  /** `RowMeta.select`: `onSelect` with `key(data)` when there is a `key`, the data otherwise, and the row. */
  function Select(options: SelectionOptions, row: Row): (r: Option<Event>)
    ensures r.Some? <==> options.hasOnSelect
    ensures r.Some? ==> r.value.Selected? && r.value.row == row &&
                        r.value.item == (if options.key.Some? then options.key.value(row.data) else row.data)
  {
    if options.hasOnSelect then Some(Selected(Identity(options, row.data), row)) else None
  }

  /** `RowMeta.deselect`: `onDeselect` with `key(data)` when there is a `key`, the data otherwise, and the row. */
  function Deselect(options: SelectionOptions, row: Row): (r: Option<Event>)
    ensures r.Some? <==> options.hasOnDeselect
    ensures r.Some? ==> r.value.Deselected? && r.value.row == row &&
                        r.value.item == (if options.key.Some? then options.key.value(row.data) else row.data)
  {
    if options.hasOnDeselect then Some(Deselected(Identity(options, row.data), row)) else None
  }

  /** `RowMeta.toggle`: deselects a selected row and selects any other. */
  function Toggle(options: SelectionOptions, row: Row): (r: Result<Option<Event>>)
    ensures r.Err? <==> options.selection.None?
    ensures r.Ok? && IsSelected(options, row.data) == Ok(true) ==> r.value == Deselect(options, row)
    ensures r.Ok? && IsSelected(options, row.data) == Ok(false) ==> r.value == Select(options, row)
  {
    match IsSelected(options, row.data)
    case Err(msg) => Err(msg)
    case Ok(selected) => Ok(if selected then Deselect(options, row) else Select(options, row))
  }

  /** The options once the host has applied an event to its selection. */
  function Applied(options: SelectionOptions, event: Event): SelectionOptions
    requires options.selection.Some?
  {
    var current := SelectionSet(options).value;
    var next := match event
      case Selected(item, _) => current + {item}
      case Deselected(item, _) => current - {item};
    options.(selection := Some(SetOf(next)))
  }

  /**
   * When the constructor's check passes and the host applies what `toggle`
   * asked for, the row's selection state flips, and no other row's does
   * unless it shares the row's identity.
   */
  lemma ToggleFlips(options: SelectionOptions, row: Row, other: Value)
    requires Construct(options).Pass?
    ensures var event := Toggle(options, row).value.value;
            var after := Applied(options, event);
            IsSelected(after, row.data).value == !IsSelected(options, row.data).value &&
            (Identity(options, other) != Identity(options, row.data) ==>
               IsSelected(after, other) == IsSelected(options, other))
  {
  }
}
