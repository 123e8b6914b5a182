/** The column-reordering plugin's column metadata: a column's position and its moves. */
module ReorderingColumn {
  import opened Wrappers
  import opened Types
  import opened ColumnOrdering
  import opened Reordering
  import opened ReorderingTable

  /** The reordering column metadata: the position of one column. */
  class ColumnMeta {
    const column: Column
    const table: TableMeta

    constructor(column: Column, table: TableMeta)
      ensures this.column == column && this.table == table
    {
      this.column := column;
      this.table := table;
    }

    /**
     * `moveLeft` (`this.position--`, `delta` -1) and `moveRight`
     * (`this.position++`, `delta` 1): the column's position is read, then
     * recorded shifted by `delta`; the expression yields the position read.
     * A failing read records nothing; the read fails for the column the
     * merged order puts first, as `get`'s truthiness `assert` does.
     */
    method Move(visible: seq<Column>, delta: int) returns (r: Result<int>)
      requires table.columnOrder.Valid()
      modifies table.columnOrder
      ensures table.columnOrder.Valid()
      ensures r.Err? ==> table.columnOrder.positions == old(table.columnOrder.positions)
      ensures r.Ok? ==> 0 < r.value < |visible| &&
                        table.columnOrder.positions ==
                          MapSet(old(table.columnOrder.positions), ColumnKey(column), r.value + delta)
      ensures old(Canonical(Keys(visible), table.columnOrder.positions)) ==>
                r == GetAsWritten(Expected(Keys(visible), old(table.columnOrder.positions)), ColumnKey(column))
    {
      r := table.GetPosition(visible, column);
      if r.Ok? {
        table.SetPosition(column, r.value + delta);
      }
    }

    method MoveLeft(visible: seq<Column>) returns (r: Result<int>)
      requires table.columnOrder.Valid()
      modifies table.columnOrder
      ensures table.columnOrder.Valid()
      ensures r.Err? ==> table.columnOrder.positions == old(table.columnOrder.positions)
      ensures r.Ok? ==> 0 < r.value < |visible| &&
                        table.columnOrder.positions ==
                          MapSet(old(table.columnOrder.positions), ColumnKey(column), r.value - 1)
      ensures old(Canonical(Keys(visible), table.columnOrder.positions)) ==>
                r == GetAsWritten(Expected(Keys(visible), old(table.columnOrder.positions)), ColumnKey(column))
    {
      r := Move(visible, -1);
    }

    method MoveRight(visible: seq<Column>) returns (r: Result<int>)
      requires table.columnOrder.Valid()
      modifies table.columnOrder
      ensures table.columnOrder.Valid()
      ensures r.Err? ==> table.columnOrder.positions == old(table.columnOrder.positions)
      ensures r.Ok? ==> 0 < r.value < |visible| &&
                        table.columnOrder.positions ==
                          MapSet(old(table.columnOrder.positions), ColumnKey(column), r.value + 1)
      ensures old(Canonical(Keys(visible), table.columnOrder.positions)) ==>
                r == GetAsWritten(Expected(Keys(visible), old(table.columnOrder.positions)), ColumnKey(column))
    {
      r := Move(visible, 1);
    }
  }
}
