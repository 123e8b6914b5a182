/**
 * A row of the table: its position among the table's rows, its parity, its
 * neighbours and whether it is selected.
 */
module RowModel {
  import opened Wrappers
  import opened Values
  import opened Types
  import TableModel

  const NotInTable := "Row is no longer a part of the table, something has gone wrong"

  /** `rows.indexOf(row)`: the first position holding the row, or -1. */
  function IndexOfRow(rows: seq<Row>, row: Row): (i: int)
    ensures -1 <= i < |rows|
    ensures i == -1 <==> row !in rows
    ensures i >= 0 ==> rows[i] == row && row !in rows[..i]
  {
    if rows == [] then -1
    else if rows[0] == row then 0
    else
      var j := IndexOfRow(rows[1..], row);
      assert j >= 0 ==> rows[1..][..j] == rows[1..j + 1];
      if j < 0 then -1 else j + 1
  }

  /** `row.index` */
  function Index(rows: seq<Row>, row: Row): (r: Result<nat>)
    ensures r.Err? <==> row !in rows
    ensures r.Err? ==> r.msg == NotInTable
    ensures r.Ok? ==> r.value < |rows| && rows[r.value] == row && row !in rows[..r.value]
  {
    var i := IndexOfRow(rows, row);
    if i >= 0 then Ok(i) else Err(NotInTable)
  }

  /** `row.isOdd`: `index % 2 !== 0` */
  function IsOdd(rows: seq<Row>, row: Row): (r: Result<bool>)
    ensures r.Err? <==> Index(rows, row).Err?
    ensures r.Ok? ==> (r.value <==> Index(rows, row).value % 2 == 1)
  {
    match Index(rows, row)
    case Err(m) => Err(m)
    case Ok(i) => Ok(i % 2 != 0)
  }

  /** `row.next`: `rows[index + 1]`, `undefined` past the end. */
  function Next(rows: seq<Row>, row: Row): (r: Result<Option<Row>>)
    ensures r.Err? <==> row !in rows
    ensures r.Ok? && r.value.Some? ==>
              Index(rows, row).value + 1 < |rows| && r.value.value == rows[Index(rows, row).value + 1]
    ensures r.Ok? && r.value.None? ==> Index(rows, row).value == |rows| - 1
  {
    match Index(rows, row)
    case Err(m) => Err(m)
    case Ok(i) => if i + 1 < |rows| then Ok(Some(rows[i + 1])) else Ok(None)
  }

  /** `row.prev`: `rows[index - 1]`, `undefined` before the start. */
  function Prev(rows: seq<Row>, row: Row): (r: Result<Option<Row>>)
    ensures r.Err? <==> row !in rows
    ensures r.Ok? && r.value.Some? ==>
              Index(rows, row).value >= 1 && r.value.value == rows[Index(rows, row).value - 1]
    ensures r.Ok? && r.value.None? ==> Index(rows, row).value == 0
  {
    match Index(rows, row)
    case Err(m) => Err(m)
    case Ok(i) => if i >= 1 then Ok(Some(rows[i - 1])) else Ok(None)
  }

  /** `row.isSelected`: the row's data is in `table.rowSelection`. */
  function IsSelected(args: TableModel.TableArgs, row: Row): (r: bool)
    ensures r <==> args.rowSelection == Some(row.data)
  {
    row.data in TableModel.RowSelection(args)
  }

  /**
   * `row.isSelectable`: `table.isRowSelectable`, never nullish: the
   * table's `isRowSelectable` when given, else whether `onRowSelectionChange`
   * is truthy.
   */
  function IsSelectable(args: TableModel.TableArgs): (r: Value)
    ensures !Nullish(r)
    ensures Nullish(args.isRowSelectable) ==> r == Bool(Truthy(args.onRowSelectionChange))
    ensures !Nullish(args.isRowSelectable) ==> r == args.isRowSelectable
  {
    TableModel.IsRowSelectable(args)
  }

  /** In a list without repeats, a row's position is where it stands. */
  lemma {:induction false} IndexOfDistinct(rows: seq<Row>, i: nat)
    requires i < |rows|
    requires forall a, b :: 0 <= a < |rows| && 0 <= b < |rows| && rows[a] == rows[b] ==> a == b
    ensures Index(rows, rows[i]) == Ok(i)
  {
    var j := IndexOfRow(rows, rows[i]);
    assert rows[j] == rows[i];
  }

  /** Every row the table builds knows its own position, and the parity of it. */
  lemma BuiltRowIndex(args: TableModel.TableArgs, i: nat)
    requires i < |TableModel.RowsOf(args)|
    ensures Index(TableModel.RowsOf(args), TableModel.RowsOf(args)[i]) == Ok(i)
    ensures IsOdd(TableModel.RowsOf(args), TableModel.RowsOf(args)[i]) == Ok(i % 2 == 1)
  {
    IndexOfDistinct(TableModel.RowsOf(args), i);
  }

  /** In a list without repeats, `next` and `prev` undo each other. */
  lemma NextPrevInverse(rows: seq<Row>, row: Row)
    requires forall a, b :: 0 <= a < |rows| && 0 <= b < |rows| && rows[a] == rows[b] ==> a == b
    requires Next(rows, row).Ok? && Next(rows, row).value.Some?
    ensures Prev(rows, Next(rows, row).value.value) == Ok(Some(row))
  {
    var i := Index(rows, row).value;
    IndexOfDistinct(rows, i + 1);
  }
}
