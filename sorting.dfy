/**
 * The data-sorting plugin: a column's sort property and current direction
 * read from the table's `sorts`, and the sort lists `handleSort`,
 * `toggleAscending` and `toggleDescending` hand to the table's `onSort`.
 * The plugin does not sort; a call to `onSort` is modelled as the list it
 * is given, `None` when `onSort` is not called.
 */
module Sorting {
  import opened Wrappers

  /** `SortDirection`; `Unsorted` is the enum's `None` (`'none'`). */
  datatype SortDirection = Ascending | Descending | Unsorted

  /** A `SortItem`: the property to sort by and the direction. */
  datatype Sort = Sort(property: string, direction: SortDirection)

  /**
   * The column's options for the plugin: `isSortable` and `sortProperty`,
   * `None` where the option is absent or nullish.
   */
  datatype ColumnSortOptions = ColumnSortOptions(isSortable: Option<bool>, sortProperty: Option<string>)

  /** The table's options for the plugin: whether `onSort` is given, and `sorts`. */
  datatype TableSortOptions = TableSortOptions(hasOnSort: bool, sorts: Option<seq<Sort>>)

  // ---------------------------------------------------------------------
  // TableMeta getters

  /** `sorts`: the given sorts, `[]` without options or without `sorts`. */
  function Sorts(table: Option<TableSortOptions>): seq<Sort> {
    if table.Some? && table.value.sorts.Some? then table.value.sorts.value else []
  }

  /** `isSortable`: both `onSort` and `sorts` are given (an empty list is truthy). */
  predicate TableIsSortable(table: Option<TableSortOptions>) {
    table.Some? && table.value.hasOnSort && table.value.sorts.Some?
  }

  /** Whether `this.onSort?.(...)` calls anything. */
  predicate HasOnSort(table: Option<TableSortOptions>) {
    table.Some? && table.value.hasOnSort
  }

  // ---------------------------------------------------------------------
  // ColumnMeta getters

  /** `isSortable`: the column's own option, else the table's. */
  function ColumnIsSortable(column: Option<ColumnSortOptions>, table: Option<TableSortOptions>): (r: bool)
    ensures column.Some? && column.value.isSortable.Some? ==> r == column.value.isSortable.value
    ensures (column.None? || column.value.isSortable.None?) ==> (r <==> TableIsSortable(table))
  {
    if column.Some? && column.value.isSortable.Some? then column.value.isSortable.value
    else TableIsSortable(table)
  }

  /** `sortProperty`: the column's `sortProperty` option, else the column's key. */
  function SortProperty(column: Option<ColumnSortOptions>, key: string): string {
    if column.Some? && column.value.sortProperty.Some? then column.value.sortProperty.value else key
  }

  /** `sorts.find((sort) => sort.property === property)`, as an index. */
  function FirstSort(sorts: seq<Sort>, property: string): (r: Option<nat>)
    ensures r.None? <==> forall s <- sorts :: s.property != property
    ensures r.Some? ==> r.value < |sorts| && sorts[r.value].property == property &&
                        forall j :: 0 <= j < r.value ==> sorts[j].property != property
  {
    if sorts == [] then None
    else if sorts[0].property == property then Some(0)
    else
      var r := FirstSort(sorts[1..], property);
      if r.None? then None else Some(r.value + 1)
  }

  /** `sortDirection`: the direction of the first sort of the property, else `None`. */
  function Direction(sorts: seq<Sort>, property: string): SortDirection {
    var r := FirstSort(sorts, property);
    if r.None? then Unsorted else sorts[r.value].direction
  }

  /** `isAscending`, `isDescending` and `isUnsorted` are each an equality test on the direction. */
  predicate IsAscending(sorts: seq<Sort>, property: string) {
    Direction(sorts, property) == Ascending
  }

  predicate IsDescending(sorts: seq<Sort>, property: string) {
    Direction(sorts, property) == Descending
  }

  predicate IsUnsorted(sorts: seq<Sort>, property: string) {
    Direction(sorts, property) == Unsorted
  }

  /**
   * Only the first sort of a property decides its direction: sorts of other
   * properties before it and any sorts after it, a later sort of the same
   * property included, leave the direction unchanged.
   */
  lemma FirstSortDecides(before: seq<Sort>, sorts: seq<Sort>, after: seq<Sort>, property: string)
    requires forall s <- before :: s.property != property
    requires exists s <- sorts :: s.property == property
    ensures Direction(before + sorts + after, property) == Direction(sorts, property)
  {
    var all := before + sorts + after;
    var i := FirstSort(sorts, property).value;
    var k := FirstSort(all, property);
    assert all[|before| + i] == sorts[i];
    assert k.Some? by {
      assert all[|before| + i] in all;
    }
    forall j | 0 <= j < |before| + i
      ensures all[j].property != property
    {
      if j < |before| {
        assert all[j] == before[j];
        assert before[j] in before;
      } else {
        assert all[j] == sorts[j - |before|];
      }
    }
    assert k.value == |before| + i;
  }

  // ---------------------------------------------------------------------
  // Requests handed to `onSort`

  /** The list that asks for `property` in direction `d`: nothing for `Unsorted`. */
  function Request(property: string, d: SortDirection): seq<Sort> {
    if d == Unsorted then [] else [Sort(property, d)]
  }

  /** The three-state cycle of `handleSort`: none, then descending, then ascending. */
  function NextInCycle(d: SortDirection): SortDirection {
    match d
    case Unsorted => Descending
    case Descending => Ascending
    case Ascending => Unsorted
  }

  /** The request asks for exactly the direction it names, and for no other property. */
  lemma RequestDirection(property: string, d: SortDirection, other: string)
    ensures Direction(Request(property, d), property) == d
    ensures other != property ==> Direction(Request(property, d), other) == Unsorted
  {
  }

  /**
   * `handleSort(column)`: nothing when the sort property is empty or there
   * is no `onSort`; otherwise the request for the next state of the cycle.
   */
  function HandleSort(column: Option<ColumnSortOptions>, key: string, table: Option<TableSortOptions>)
    : (r: Option<seq<Sort>>)
    ensures r.Some? <==> SortProperty(column, key) != "" && HasOnSort(table)
    ensures r.Some? ==> |r.value| <= 1 && forall s <- r.value :: s.property == SortProperty(column, key)
    ensures r.Some? ==>
              var p := SortProperty(column, key);
              Direction(r.value, p) == NextInCycle(Direction(Sorts(table), p))
  {
    var p := SortProperty(column, key);
    if p == "" || !HasOnSort(table) then None
    else
      var d := Direction(Sorts(table), p);
      var next :=
        if d == Ascending then []
        else if d == Descending then [Sort(p, Ascending)]
        else [Sort(p, Descending)];
      RequestDirection(p, NextInCycle(d), p);
      assert next == Request(p, NextInCycle(d));
      Some(next)
  }

  /** `toggleAscending(column)`: clears an ascending sort, asks for one otherwise. */
  function ToggleAscending(column: Option<ColumnSortOptions>, key: string, table: Option<TableSortOptions>)
    : (r: Option<seq<Sort>>)
    ensures r.Some? <==> SortProperty(column, key) != "" && HasOnSort(table)
    ensures r.Some? ==> |r.value| <= 1 && forall s <- r.value :: s.property == SortProperty(column, key)
    ensures r.Some? ==>
              var p := SortProperty(column, key);
              Direction(r.value, p) == (if IsAscending(Sorts(table), p) then Unsorted else Ascending)
  {
    var p := SortProperty(column, key);
    if p == "" || !HasOnSort(table) then None
    else if Direction(Sorts(table), p) == Ascending then Some([])
    else Some([Sort(p, Ascending)])
  }

  /** `toggleDescending(column)`: clears a descending sort, asks for one otherwise. */
  function ToggleDescending(column: Option<ColumnSortOptions>, key: string, table: Option<TableSortOptions>)
    : (r: Option<seq<Sort>>)
    ensures r.Some? <==> SortProperty(column, key) != "" && HasOnSort(table)
    ensures r.Some? ==> |r.value| <= 1 && forall s <- r.value :: s.property == SortProperty(column, key)
    ensures r.Some? ==>
              var p := SortProperty(column, key);
              Direction(r.value, p) == (if IsDescending(Sorts(table), p) then Unsorted else Descending)
  {
    var p := SortProperty(column, key);
    if p == "" || !HasOnSort(table) then None
    else if Direction(Sorts(table), p) == Descending then Some([])
    else Some([Sort(p, Descending)])
  }

  // ---------------------------------------------------------------------
  // Feeding the requests back

  /** The table's options once the host has stored what `onSort` received as `sorts`. */
  function Applied(table: Option<TableSortOptions>, request: Option<seq<Sort>>): Option<TableSortOptions> {
    if request.None? then table else Some(TableSortOptions(HasOnSort(table), Some(request.value)))
  }

  /**
   * When the host stores every request as the new `sorts`, three
   * `handleSort` calls bring the column back to the direction it started
   * in, passing through the two others.
   */
  lemma {:induction false} HandleSortCycles(column: Option<ColumnSortOptions>, key: string, table: Option<TableSortOptions>)
    requires SortProperty(column, key) != "" && HasOnSort(table)
    ensures var p := SortProperty(column, key);
            var t1 := Applied(table, HandleSort(column, key, table));
            var t2 := Applied(t1, HandleSort(column, key, t1));
            var t3 := Applied(t2, HandleSort(column, key, t2));
            var d0 := Direction(Sorts(table), p);
            var d1 := Direction(Sorts(t1), p);
            var d2 := Direction(Sorts(t2), p);
            d1 != d0 && d2 != d0 && d2 != d1 && Direction(Sorts(t3), p) == d0
  {
    var p := SortProperty(column, key);
    var t1 := Applied(table, HandleSort(column, key, table));
    var t2 := Applied(t1, HandleSort(column, key, t1));
    var t3 := Applied(t2, HandleSort(column, key, t2));
    assert Direction(Sorts(t1), p) == NextInCycle(Direction(Sorts(table), p));
    assert Direction(Sorts(t2), p) == NextInCycle(Direction(Sorts(t1), p));
    assert Direction(Sorts(t3), p) == NextInCycle(Direction(Sorts(t2), p));
  }

  /**
   * When the host stores every request, toggling ascending twice from an
   * ascending or an unsorted column brings it back where it was.
   */
  lemma ToggleAscendingTwice(column: Option<ColumnSortOptions>, key: string, table: Option<TableSortOptions>)
    requires SortProperty(column, key) != "" && HasOnSort(table)
    requires !IsDescending(Sorts(table), SortProperty(column, key))
    ensures var t1 := Applied(table, ToggleAscending(column, key, table));
            var t2 := Applied(t1, ToggleAscending(column, key, t1));
            Direction(Sorts(t2), SortProperty(column, key)) == Direction(Sorts(table), SortProperty(column, key))
  {
  }

  /**
   * When the host stores every request, toggling descending twice from a
   * descending or an unsorted column brings it back where it was.
   */
  lemma ToggleDescendingTwice(column: Option<ColumnSortOptions>, key: string, table: Option<TableSortOptions>)
    requires SortProperty(column, key) != "" && HasOnSort(table)
    requires !IsAscending(Sorts(table), SortProperty(column, key))
    ensures var t1 := Applied(table, ToggleDescending(column, key, table));
            var t2 := Applied(t1, ToggleDescending(column, key, t1));
            Direction(Sorts(t2), SortProperty(column, key)) == Direction(Sorts(table), SortProperty(column, key))
  {
  }
}
