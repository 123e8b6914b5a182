/**
 * `ColumnOrder`, the column-reordering plugin's store of the positions a
 * user recorded, and the plugin's table metadata that owns it.
 *
 * The `columns` thunk a `ColumnOrder` is built with (the visible columns of
 * the table) is passed to each operation as the list it currently returns.
 */
module ReorderingTable {
  import opened Wrappers
  import opened Types
  import opened ColumnOrdering
  import opened Reordering

  // ---------------------------------------------------------------------
  // `ColumnOrder`
  /** The positions a user recorded (the source's `map` field), keyed by column key, in insertion order. */
  class ColumnOrder {
    var positions: Order

    ghost predicate Valid()
      reads this
    {
      DistinctKeys(positions)
    }

    /** Empty until something is reordered. */
    constructor()
      ensures Valid() && positions == []
    {
      positions := [];
    }

    /** `set(key, position)`: a plain `map.set` on the recorded positions; no other key moves. */
    method Set(key: string, position: int)
      requires Valid()
      modifies this
      ensures Valid()
      ensures positions == MapSet(old(positions), key, position)
    {
      MapSetDistinct(positions, key, position);
      positions := MapSet(positions, key, position);
    }

    /** `orderedMap`: the recorded positions merged with the column order. */
    method OrderedMap(columns: seq<Column>) returns (r: Order)
      requires Valid()
      ensures DistinctKeys(r)
      ensures forall j :: 0 <= j < |r| ==> 0 <= r[j].1 < |columns|
      ensures Canonical(Keys(columns), positions) ==> r == Expected(Keys(columns), positions)
    {
      r := OrderOf(Keys(columns), positions);
    }

    /**
     * `get(key)`: the key's position in the merged order. Its `assert`
     * tests the position's truthiness, so the key at position 0 fails as a
     * missing one does (the corrected reading is `GetResolved`).
     */
    method Get(columns: seq<Column>, key: string) returns (r: Result<int>)
      requires Valid()
      ensures r.Ok? ==> 0 < r.value < |columns|
      ensures r.Err? ==> r.msg == NoPositionMessage(key)
      ensures Canonical(Keys(columns), positions) ==> r == GetAsWritten(Expected(Keys(columns), positions), key)
      ensures Canonical(Keys(columns), positions) && key in Keys(columns) ==>
                (r.Err? <==> Expected(Keys(columns), positions)[0].0 == key) &&
                (r.Ok? ==> Expected(Keys(columns), positions)[r.value] == (key, r.value))
    {
      var ordered := OrderedMap(columns);
      r := GetAsWritten(ordered, key);
      if r.Ok? {
        var i :| 0 <= i < |ordered| && ordered[i] == (key, r.value);
      }
      if Canonical(Keys(columns), positions) && key in Keys(columns) {
        var keys := Keys(columns);
        var e := Expected(keys, positions);
        ResolvedPosition(keys, positions, key);
        ExpectedBijection(keys, positions);
        var p := GetResolved(e, key).value;
        assert e[p] == (key, p);
        assert e[0].1 == 0;
        assert e[0].0 == key ==> p == 0;
      }
    }

    /**
     * `orderedColumns`: each column at the position the merged order gives
     * its key. Fails when a merged key is not a column key, or when a slot
     * stays empty. A result holds distinct columns, all available ones when
     * their keys are distinct, and follows the full order in the canonical
     * situation.
     */
    method OrderedColumns(columns: seq<Column>) returns (r: Result<seq<Column>>)
      requires Valid()
      ensures r.Ok? ==> |r.value| == |columns| && (forall c <- r.value :: c in columns) &&
                        Distinct(Keys(r.value))
      ensures r.Ok? && Distinct(Keys(columns)) ==> forall c <- columns :: c in r.value
      ensures StrayRecorded(positions, Keys(columns)) ==> r.Err?
      ensures Canonical(Keys(columns), positions) ==>
                r.Ok? && forall i :: 0 <= i < |columns| ==>
                                      ColumnKey(r.value[i]) == Expected(Keys(columns), positions)[i].0
    {
      var keys := Keys(columns);
      var byKey := ByKey(columns);
      var merged := OrderOf(keys, positions);
      if StrayRecorded(positions, keys) {
        StrayEntry(positions, keys, merged);
      }
      var n := |columns|;
      var placed := Slotted(merged, byKey, n);
      if placed.Err? {
        return Err(placed.msg);
      }
      var slots := placed.value;
      Arranged(merged, columns, positions, slots);
      var filled := Filled(slots);
      if filled != n {
        return Err(LengthMessage(filled, n));
      }
      r := Ok(Unwrap(slots));
    }
  }

  /**
   * The loop of `orderedColumns`: the column of each merged key is written
   * at its position in an array of `n` slots. Fails at the first merged
   * key that is not a column key.
   */
  method Slotted(merged: Order, byKey: map<string, Column>, n: nat) returns (r: Result<seq<Option<Column>>>)
    requires forall j :: 0 <= j < |merged| ==> 0 <= merged[j].1 < n
    ensures r.Ok? ==> |r.value| == n && SlotsMatch(r.value, merged, byKey) && forall e <- merged :: e.0 in byKey
    ensures r.Err? ==> exists e <- merged :: e.0 !in byKey && r.msg == StrayMessage(e.0)
  {
    var slots := new Option<Column>[n](_ => None);
    for j := 0 to |merged|
      invariant SlotsMatch(slots[..], merged[..j], byKey)
      invariant forall e <- merged[..j] :: e.0 in byKey
    {
      var (key, position) := merged[j];
      if key !in byKey {
        assert merged[j] in merged;
        return Err(StrayMessage(key));
      }
      SlotsStep(slots[..], merged[..j], byKey, key, position);
      PrefixStep(merged, j);
      slots[position] := Some(byKey[key]);
    }
    assert merged[..|merged|] == merged;
    r := Ok(slots[..]);
  }

  /** The reordering table metadata: one `ColumnOrder` kept for the table's life. */
  class TableMeta {
    const columnOrder: ColumnOrder

    constructor()
      ensures fresh(columnOrder) && columnOrder.Valid() && columnOrder.positions == []
    {
      columnOrder := new ColumnOrder();
    }

    /**
     * `getPosition(column)`, over the currently visible columns: the
     * column's position in the merged order, failing for the column placed
     * first as `get` does.
     */
    method GetPosition(visible: seq<Column>, column: Column) returns (r: Result<int>)
      requires columnOrder.Valid()
      ensures r.Ok? ==> 0 < r.value < |visible|
      ensures r.Err? ==> r.msg == NoPositionMessage(ColumnKey(column))
      ensures Canonical(Keys(visible), columnOrder.positions) ==>
                r == GetAsWritten(Expected(Keys(visible), columnOrder.positions), ColumnKey(column))
      ensures Canonical(Keys(visible), columnOrder.positions) && ColumnKey(column) in Keys(visible) ==>
                (r.Err? <==> Expected(Keys(visible), columnOrder.positions)[0].0 == ColumnKey(column)) &&
                (r.Ok? ==> Expected(Keys(visible), columnOrder.positions)[r.value] == (ColumnKey(column), r.value))
    {
      r := columnOrder.Get(visible, ColumnKey(column));
    }

    /** `setPosition(column, newPosition)` */
    method SetPosition(column: Column, newPosition: int)
      requires columnOrder.Valid()
      modifies columnOrder
      ensures columnOrder.Valid()
      ensures columnOrder.positions == MapSet(old(columnOrder.positions), ColumnKey(column), newPosition)
    {
      columnOrder.Set(ColumnKey(column), newPosition);
    }

    /**
     * `columns`: the visible columns in their merged order, with distinct
     * keys, all of them when their keys are distinct; a recorded key that is
     * not a visible column's fails.
     */
    method Columns(visible: seq<Column>) returns (r: Result<seq<Column>>)
      requires columnOrder.Valid()
      ensures r.Ok? ==> |r.value| == |visible| && (forall c <- r.value :: c in visible) &&
                        Distinct(Keys(r.value))
      ensures r.Ok? && Distinct(Keys(visible)) ==> forall c <- visible :: c in r.value
      ensures StrayRecorded(columnOrder.positions, Keys(visible)) ==> r.Err?
      ensures Canonical(Keys(visible), columnOrder.positions) ==>
                r.Ok? && forall i :: 0 <= i < |visible| ==>
                                      ColumnKey(r.value[i]) == Expected(Keys(visible), columnOrder.positions)[i].0
    {
      r := columnOrder.OrderedColumns(visible);
    }
  }
}
