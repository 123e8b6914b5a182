/**
 * The column-visibility plugin: a column is visible per its stored
 * `isVisible` preference, else per its `isVisible` column option; hiding and
 * showing as the source writes them (which drop the preference where the
 * option agrees with the old state, not the new one) beside the corrected
 * reading; the table's visible columns and the neighbours among them.
 */
module Visibility {
  import opened Wrappers
  import opened Values
  import opened Types
  import opened Preferences
  import opened PluginPreferences
  import opened Base

  /** `ColumnVisibility.name`, the key its preferences are stored under. */
  const PluginName := "ColumnVisibility"

  /** The identity of the `ColumnVisibility` class; any fixed value serves. */
  const VisibilityClass: ClassId := 1

  const IsVisibleKey := "isVisible"

  /** `options.forColumn(column, ColumnVisibility)?.isVisible` */
  function OptionVisible(column: Column): Value {
    Get(OptionsForColumn(column, VisibilityClass), IsVisibleKey)
  }

  /** The stored `isVisible` preference of a column. */
  function PreferenceVisible(view: map<string, PluginDoc>, column: Column): Value {
    ColumnValueIn(view, PluginName, ColumnKey(column), IsVisibleKey)
  }

  /** `isVisible`: the preference when it is set, the column option otherwise. */
  function IsVisibleIn(view: map<string, PluginDoc>, column: Column): Value {
    Coalesce(PreferenceVisible(view, column), OptionVisible(column))
  }

  /** Reading a preference creates empty buckets, which change no value. */
  lemma BucketKeepsValues(view: map<string, PluginDoc>, name: string, columnKey: string, c: Column)
    ensures forall n, ck, k :: ColumnValueIn(WithColumnBucket(view, name, columnKey), n, ck, k) ==
                                ColumnValueIn(view, n, ck, k)
    ensures IsVisibleIn(WithColumnBucket(view, name, columnKey), c) == IsVisibleIn(view, c)
  {
  }

  // ---------------------------------------------------------------------
  // Hiding and showing, on the preference view

  /** The view `hide` leaves as written: `willBeDefault` is the option itself. */
  function HiddenAsWritten(view: map<string, PluginDoc>, column: Column): map<string, PluginDoc> {
    var v := WithColumnBucket(view, PluginName, ColumnKey(column));
    if !Truthy(IsVisibleIn(view, column)) then v
    else if Truthy(OptionVisible(column)) then WithoutColumnValue(v, PluginName, ColumnKey(column), IsVisibleKey)
    else WithColumnValue(v, PluginName, ColumnKey(column), IsVisibleKey, Bool(false))
  }

  /** The view `show` leaves as written: `willBeDefault` is the option's negation. */
  function ShownAsWritten(view: map<string, PluginDoc>, column: Column): map<string, PluginDoc> {
    var v := WithColumnBucket(view, PluginName, ColumnKey(column));
    if Truthy(IsVisibleIn(view, column)) then v
    else if !Truthy(OptionVisible(column)) then WithoutColumnValue(v, PluginName, ColumnKey(column), IsVisibleKey)
    else WithColumnValue(v, PluginName, ColumnKey(column), IsVisibleKey, Bool(true))
  }

  /**
   * A column whose option makes it visible, with no stored preference,
   * stays visible after `hide` as written.
   */
  lemma HideAsWrittenKeepsVisible(view: map<string, PluginDoc>, column: Column)
    requires Truthy(OptionVisible(column)) && Nullish(PreferenceVisible(view, column))
    ensures Truthy(IsVisibleIn(view, column))
    ensures Truthy(IsVisibleIn(HiddenAsWritten(view, column), column))
  {
    var v := WithColumnBucket(view, PluginName, ColumnKey(column));
    ColumnValueSetGet(v, PluginName, ColumnKey(column), IsVisibleKey, Undef, PluginName, ColumnKey(column), IsVisibleKey);
  }

  /**
   * A column without the option, hidden by a stored `false`, stays hidden
   * after `show` as written.
   */
  lemma ShowAsWrittenKeepsHidden(view: map<string, PluginDoc>, column: Column)
    requires !Truthy(OptionVisible(column)) && PreferenceVisible(view, column) == Bool(false)
    ensures !Truthy(IsVisibleIn(view, column))
    ensures !Truthy(IsVisibleIn(ShownAsWritten(view, column), column))
  {
    var v := WithColumnBucket(view, PluginName, ColumnKey(column));
    ColumnValueSetGet(v, PluginName, ColumnKey(column), IsVisibleKey, Undef, PluginName, ColumnKey(column), IsVisibleKey);
  }

  /**
   * `hide` as written takes the preference away where the option shows
   * the column: a visible column ends up hidden exactly when its option does
   * not show it. No other preference changes.
   */
  lemma HideAsWrittenEffect(view: map<string, PluginDoc>, column: Column, n: string, ck: string, k: string)
    ensures Truthy(IsVisibleIn(view, column)) ==>
              (Truthy(IsVisibleIn(HiddenAsWritten(view, column), column)) <==> Truthy(OptionVisible(column)))
    ensures !Truthy(IsVisibleIn(view, column)) ==> !Truthy(IsVisibleIn(HiddenAsWritten(view, column), column))
    ensures (n, ck, k) != (PluginName, ColumnKey(column), IsVisibleKey) ==>
              ColumnValueIn(HiddenAsWritten(view, column), n, ck, k) == ColumnValueIn(view, n, ck, k)
  {
    var v := WithColumnBucket(view, PluginName, ColumnKey(column));
    BucketKeepsValues(view, PluginName, ColumnKey(column), column);
    ColumnValueSetGet(v, PluginName, ColumnKey(column), IsVisibleKey, Bool(false), n, ck, k);
    ColumnValueSetGet(v, PluginName, ColumnKey(column), IsVisibleKey, Bool(false),
                      PluginName, ColumnKey(column), IsVisibleKey);
  }

  /**
   * `show` as written takes the preference away where the option does not
   * show the column: a hidden column ends up visible exactly when its
   * option shows it. No other preference changes.
   */
  lemma ShowAsWrittenEffect(view: map<string, PluginDoc>, column: Column, n: string, ck: string, k: string)
    ensures !Truthy(IsVisibleIn(view, column)) ==>
              (Truthy(IsVisibleIn(ShownAsWritten(view, column), column)) <==> Truthy(OptionVisible(column)))
    ensures Truthy(IsVisibleIn(view, column)) ==> Truthy(IsVisibleIn(ShownAsWritten(view, column), column))
    ensures (n, ck, k) != (PluginName, ColumnKey(column), IsVisibleKey) ==>
              ColumnValueIn(ShownAsWritten(view, column), n, ck, k) == ColumnValueIn(view, n, ck, k)
  {
    var v := WithColumnBucket(view, PluginName, ColumnKey(column));
    BucketKeepsValues(view, PluginName, ColumnKey(column), column);
    ColumnValueSetGet(v, PluginName, ColumnKey(column), IsVisibleKey, Bool(true), n, ck, k);
    ColumnValueSetGet(v, PluginName, ColumnKey(column), IsVisibleKey, Bool(true),
                      PluginName, ColumnKey(column), IsVisibleKey);
  }

  /** The view `toggle` leaves as written. */
  function ToggledAsWritten(view: map<string, PluginDoc>, column: Column): map<string, PluginDoc> {
    var v := WithColumnBucket(view, PluginName, ColumnKey(column));
    if Truthy(IsVisibleIn(view, column)) then HiddenAsWritten(v, column) else ShownAsWritten(v, column)
  }

  /**
   * `toggle` as written flips a column exactly when its option agrees with
   * the new state: it hides a visible column the option does not show, and
   * shows a hidden column the option shows. No other preference changes.
   */
  lemma ToggleAsWrittenEffect(view: map<string, PluginDoc>, column: Column, n: string, ck: string, k: string)
    ensures Truthy(IsVisibleIn(ToggledAsWritten(view, column), column)) == Truthy(OptionVisible(column))
    ensures (n, ck, k) != (PluginName, ColumnKey(column), IsVisibleKey) ==>
              ColumnValueIn(ToggledAsWritten(view, column), n, ck, k) == ColumnValueIn(view, n, ck, k)
  {
    var v := WithColumnBucket(view, PluginName, ColumnKey(column));
    BucketKeepsValues(view, PluginName, ColumnKey(column), column);
    HideAsWrittenEffect(v, column, n, ck, k);
    ShowAsWrittenEffect(v, column, n, ck, k);
  }

  /** The corrected `hide`: no preference when hidden is the option's own state. */
  function Hidden(view: map<string, PluginDoc>, column: Column): map<string, PluginDoc> {
    var v := WithColumnBucket(view, PluginName, ColumnKey(column));
    if !Truthy(IsVisibleIn(view, column)) then v
    else if !Truthy(OptionVisible(column)) then WithoutColumnValue(v, PluginName, ColumnKey(column), IsVisibleKey)
    else WithColumnValue(v, PluginName, ColumnKey(column), IsVisibleKey, Bool(false))
  }

  /** The corrected `show`: no preference when visible is the option's own state. */
  function Shown(view: map<string, PluginDoc>, column: Column): map<string, PluginDoc> {
    var v := WithColumnBucket(view, PluginName, ColumnKey(column));
    if Truthy(IsVisibleIn(view, column)) then v
    else if Truthy(OptionVisible(column)) then WithoutColumnValue(v, PluginName, ColumnKey(column), IsVisibleKey)
    else WithColumnValue(v, PluginName, ColumnKey(column), IsVisibleKey, Bool(true))
  }

  /**
   * `hide` hides the column; it stores a preference only when the option
   * would show the column, and touches no other preference.
   */
  lemma HideHides(view: map<string, PluginDoc>, column: Column, n: string, ck: string, k: string)
    ensures !Truthy(IsVisibleIn(Hidden(view, column), column))
    ensures Truthy(IsVisibleIn(view, column)) ==>
              (Nullish(PreferenceVisible(Hidden(view, column), column)) <==> !Truthy(OptionVisible(column)))
    ensures (n, ck, k) != (PluginName, ColumnKey(column), IsVisibleKey) ==>
              ColumnValueIn(Hidden(view, column), n, ck, k) == ColumnValueIn(view, n, ck, k)
  {
    var v := WithColumnBucket(view, PluginName, ColumnKey(column));
    BucketKeepsValues(view, PluginName, ColumnKey(column), column);
    ColumnValueSetGet(v, PluginName, ColumnKey(column), IsVisibleKey, Bool(false), n, ck, k);
    ColumnValueSetGet(v, PluginName, ColumnKey(column), IsVisibleKey, Bool(false),
                      PluginName, ColumnKey(column), IsVisibleKey);
  }

  /**
   * `show` shows the column; it stores a preference only when the option
   * would hide the column, and touches no other preference.
   */
  lemma ShowShows(view: map<string, PluginDoc>, column: Column, n: string, ck: string, k: string)
    ensures Truthy(IsVisibleIn(Shown(view, column), column))
    ensures !Truthy(IsVisibleIn(view, column)) ==>
              (Nullish(PreferenceVisible(Shown(view, column), column)) <==> Truthy(OptionVisible(column)))
    ensures (n, ck, k) != (PluginName, ColumnKey(column), IsVisibleKey) ==>
              ColumnValueIn(Shown(view, column), n, ck, k) == ColumnValueIn(view, n, ck, k)
  {
    var v := WithColumnBucket(view, PluginName, ColumnKey(column));
    BucketKeepsValues(view, PluginName, ColumnKey(column), column);
    ColumnValueSetGet(v, PluginName, ColumnKey(column), IsVisibleKey, Bool(true), n, ck, k);
    ColumnValueSetGet(v, PluginName, ColumnKey(column), IsVisibleKey, Bool(true),
                      PluginName, ColumnKey(column), IsVisibleKey);
  }

  /** The corrected `toggle`. */
  function Toggled(view: map<string, PluginDoc>, column: Column): map<string, PluginDoc> {
    var v := WithColumnBucket(view, PluginName, ColumnKey(column));
    if Truthy(IsVisibleIn(view, column)) then Hidden(v, column) else Shown(v, column)
  }

  /** `toggle` flips the column's visibility and touches no other preference. */
  lemma ToggleFlips(view: map<string, PluginDoc>, column: Column, n: string, ck: string, k: string)
    ensures Truthy(IsVisibleIn(Toggled(view, column), column)) == !Truthy(IsVisibleIn(view, column))
    ensures (n, ck, k) != (PluginName, ColumnKey(column), IsVisibleKey) ==>
              ColumnValueIn(Toggled(view, column), n, ck, k) == ColumnValueIn(view, n, ck, k)
  {
    var v := WithColumnBucket(view, PluginName, ColumnKey(column));
    BucketKeepsValues(view, PluginName, ColumnKey(column), column);
    HideHides(v, column, n, ck, k);
    ShowShows(v, column, n, ck, k);
  }

  // ---------------------------------------------------------------------
  // The column metadata

  /** The visibility metadata of one column, over its table's preferences. */
  class ColumnMeta {
    const column: Column
    const prefs: TablePreferences

    constructor(column: Column, prefs: TablePreferences)
      ensures this.column == column && this.prefs == prefs
    {
      this.column := column;
      this.prefs := prefs;
    }

    /** `isVisible`; the read creates the column's preference buckets. */
    method IsVisible() returns (v: Value)
      requires prefs.Valid()
      modifies prefs.storage, prefs.storage.Repr
      ensures prefs.Valid() && fresh(prefs.storage.Repr - old(prefs.storage.Repr))
      ensures v == IsVisibleIn(old(prefs.storage.View()), column)
      ensures prefs.storage.View() == WithColumnBucket(old(prefs.storage.View()), PluginName, ColumnKey(column))
    {
      var preference := ColumnGet(prefs, PluginName, ColumnKey(column), IsVisibleKey);
      v := Coalesce(preference, OptionVisible(column));
    }

    /**
     * `hide`, as written: `willBeDefault` is the option itself, so a column
     * the option shows loses its preference and stays visible (see
     * `HideAsWrittenEffect`). A write persists once; a column already
     * hidden is left alone.
     */
    method Hide()
      requires prefs.Valid()
      modifies prefs, prefs.storage, prefs.storage.Repr
      ensures prefs.Valid() && prefs.storage == old(prefs.storage)
      ensures fresh(prefs.storage.Repr - old(prefs.storage.Repr))
      ensures prefs.columnPreferences == old(prefs.columnPreferences)
      ensures prefs.storage.View() == HiddenAsWritten(old(prefs.storage.View()), column)
      ensures prefs.persisted == old(prefs.persisted) +
                (if Truthy(IsVisibleIn(old(prefs.storage.View()), column)) then PersistCall(prefs, prefs.Saved()) else [])
    {
      ghost var v0 := prefs.storage.View();
      var visible := IsVisible();
      if !Truthy(visible) {
        return;
      }
      var willBeDefault := Truthy(OptionVisible(column));
      if willBeDefault {
        ColumnDelete(prefs, PluginName, ColumnKey(column), IsVisibleKey);
        return;
      }
      ColumnSet(prefs, PluginName, ColumnKey(column), IsVisibleKey, Bool(false));
    }

    /**
     * `show`, as written: `willBeDefault` is the option's negation, so a
     * hidden column the option does not show loses its preference and stays
     * hidden (see `ShowAsWrittenEffect`). A write persists once; a visible
     * column is left alone.
     */
    method Show()
      requires prefs.Valid()
      modifies prefs, prefs.storage, prefs.storage.Repr
      ensures prefs.Valid() && prefs.storage == old(prefs.storage)
      ensures fresh(prefs.storage.Repr - old(prefs.storage.Repr))
      ensures prefs.columnPreferences == old(prefs.columnPreferences)
      ensures prefs.storage.View() == ShownAsWritten(old(prefs.storage.View()), column)
      ensures prefs.persisted == old(prefs.persisted) +
                (if !Truthy(IsVisibleIn(old(prefs.storage.View()), column)) then PersistCall(prefs, prefs.Saved()) else [])
    {
      var visible := IsVisible();
      if Truthy(visible) {
        return;
      }
      var willBeDefault := !Truthy(OptionVisible(column));
      if willBeDefault {
        ColumnDelete(prefs, PluginName, ColumnKey(column), IsVisibleKey);
        return;
      }
      ColumnSet(prefs, PluginName, ColumnKey(column), IsVisibleKey, Bool(true));
    }

    /** `toggle`: `hide` for a visible column, `show` otherwise, as written; persists once. */
    method Toggle()
      requires prefs.Valid()
      modifies prefs, prefs.storage, prefs.storage.Repr
      ensures prefs.Valid() && prefs.storage == old(prefs.storage)
      ensures fresh(prefs.storage.Repr - old(prefs.storage.Repr))
      ensures prefs.columnPreferences == old(prefs.columnPreferences)
      ensures prefs.storage.View() == ToggledAsWritten(old(prefs.storage.View()), column)
      ensures prefs.persisted == old(prefs.persisted) + PersistCall(prefs, prefs.Saved())
    {
      ghost var v0 := prefs.storage.View();
      var visible := IsVisible();
      BucketKeepsValues(v0, PluginName, ColumnKey(column), column);
      if Truthy(visible) {
        Hide();
        return;
      }
      Show();
    }
  }

  // ---------------------------------------------------------------------
  // The table metadata

  /** `visibleColumns`: the table's columns that are visible, in order. */
  function VisibleColumns(view: map<string, PluginDoc>, columns: seq<Column>): seq<Column> {
    if columns == [] then []
    else
      var last := columns[|columns| - 1];
      VisibleColumns(view, columns[..|columns| - 1]) + (if Truthy(IsVisibleIn(view, last)) then [last] else [])
  }

  /**
   * The visible columns are exactly the visible ones among the table's
   * columns, each as often as the table has it.
   */
  lemma {:induction false} VisibleColumnsMembers(view: map<string, PluginDoc>, columns: seq<Column>)
    ensures forall c :: c in VisibleColumns(view, columns) <==> c in columns && Truthy(IsVisibleIn(view, c))
    ensures forall c :: multiset(VisibleColumns(view, columns))[c] ==
                        if Truthy(IsVisibleIn(view, c)) then multiset(columns)[c] else 0
  {
    if columns != [] {
      var init := columns[..|columns| - 1];
      var last := columns[|columns| - 1];
      assert columns == init + [last];
      VisibleColumnsMembers(view, init);
    }
  }

  /** One column is visible-listed exactly when it is a visible column of the table. */
  lemma VisibleMember(view: map<string, PluginDoc>, columns: seq<Column>, c: Column)
    ensures c in VisibleColumns(view, columns) <==> c in columns && Truthy(IsVisibleIn(view, c))
  {
    VisibleColumnsMembers(view, columns);
  }

  /** Filtering distributes over concatenation: the order of the columns is kept. */
  lemma {:induction false} VisibleColumnsAppend(view: map<string, PluginDoc>, a: seq<Column>, b: seq<Column>)
    ensures VisibleColumns(view, a + b) == VisibleColumns(view, a) + VisibleColumns(view, b)
  {
    if b != [] {
      var init := b[..|b| - 1];
      var last := b[|b| - 1];
      assert (a + b)[..|a + b| - 1] == a + init;
      assert (a + b)[|a + b| - 1] == last;
      VisibleColumnsAppend(view, a, init);
      var tail := if Truthy(IsVisibleIn(view, last)) then [last] else [];
      assert VisibleColumns(view, a + b) == VisibleColumns(view, a + init) + tail;
      assert VisibleColumns(view, b) == VisibleColumns(view, init) + tail;
    } else {
      assert a + b == a;
    }
  }

  /** `previousColumn(reference)`: the visible column before it, `None` for the first. */
  function PreviousColumn(view: map<string, PluginDoc>, columns: seq<Column>, reference: Column)
    : (r: Result<Option<Column>>)
    ensures r.Err? <==> !(reference in columns && Truthy(IsVisibleIn(view, reference)))
    ensures r.Err? ==> r.msg == NotInTableMessage
    ensures r.Ok? && r.value.Some? ==> r.value.value in columns && Truthy(IsVisibleIn(view, r.value.value))
  {
    var visible := VisibleColumns(view, columns);
    VisibleColumnsMembers(view, columns);
    var i := IndexOf(visible, reference);
    if i < 0 then Err(NotInTableMessage)
    else if i == 0 then Ok(None)
    else Ok(Some(visible[i - 1]))
  }

  /**
   * `nextColumn(reference)`: the visible column after it, `None` after the
   * last (the source's `referenceIndex > visible.length - 1` test never
   * holds, so the last column yields the element past the end).
   */
  function NextColumn(view: map<string, PluginDoc>, columns: seq<Column>, reference: Column)
    : (r: Result<Option<Column>>)
    ensures r.Err? <==> !(reference in columns && Truthy(IsVisibleIn(view, reference)))
    ensures r.Err? ==> r.msg == NotInTableMessage
    ensures r.Ok? && r.value.Some? ==> r.value.value in columns && Truthy(IsVisibleIn(view, r.value.value))
  {
    var visible := VisibleColumns(view, columns);
    VisibleColumnsMembers(view, columns);
    var i := IndexOf(visible, reference);
    if i < 0 then Err(NotInTableMessage)
    else if i + 1 < |visible| then Ok(Some(visible[i + 1]))
    else Ok(None)
  }

  /** `columnsBefore(reference)` */
  function ColumnsBefore(view: map<string, PluginDoc>, columns: seq<Column>, reference: Column): seq<Column> {
    var visible := VisibleColumns(view, columns);
    Slice(visible, 0, IndexOf(visible, reference))
  }

  /** `columnsAfter(reference)` */
  function ColumnsAfter(view: map<string, PluginDoc>, columns: seq<Column>, reference: Column): seq<Column> {
    var visible := VisibleColumns(view, columns);
    Slice(visible, IndexOf(visible, reference) + 1, |visible|)
  }

  /**
   * For a visible column, the visible columns before it, the column and
   * those after it are all the visible columns; its previous neighbour is
   * the last one before it and its next neighbour the first one after it.
   */
  lemma VisibleNeighbours(view: map<string, PluginDoc>, columns: seq<Column>, reference: Column)
    requires reference in columns && Truthy(IsVisibleIn(view, reference))
    ensures ColumnsBefore(view, columns, reference) + [reference] + ColumnsAfter(view, columns, reference) ==
            VisibleColumns(view, columns)
    ensures reference !in ColumnsBefore(view, columns, reference)
    ensures var before := ColumnsBefore(view, columns, reference);
            PreviousColumn(view, columns, reference) == Ok(if before == [] then None else Some(before[|before| - 1]))
    ensures var after := ColumnsAfter(view, columns, reference);
            NextColumn(view, columns, reference) == Ok(if after == [] then None else Some(after[0]))
  {
    var visible := VisibleColumns(view, columns);
    VisibleMember(view, columns, reference);
    NeighboursPartition(visible, reference);
    var before, after := ColumnsBefore(view, columns, reference), ColumnsAfter(view, columns, reference);
    assert before == Before(visible, reference);
    assert after == After(visible, reference);
    assert before + [reference] + after == visible;
    assert PreviousColumn(view, columns, reference) == Previous(visible, reference);
    assert NextColumn(view, columns, reference) == Next(visible, reference);
  }
}
