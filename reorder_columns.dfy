/**
 * The legacy `reorderColumns` helper of the column-reordering plugin: each
 * column goes to the slot its listed position names, or is appended when
 * that slot is taken or it has no position; an unlisted column goes to the
 * position its reordering metadata reports. Empty slots are dropped.
 */
module ReorderColumns {
  import opened Wrappers
  import opened Types
  import opened Reordering

  /** One `{ key, position }` entry of the order handed to `reorderColumns`. */
  datatype Placement = Placement(key: string, position: Option<int>)

  /** `orderedColumns.find(...)`: the first entry listing the key. */
  function Find(ordered: seq<Placement>, key: string): (r: Option<Placement>)
    ensures r.Some? ==> r.value in ordered && r.value.key == key
    ensures r.None? <==> forall e <- ordered :: e.key != key
  {
    if ordered == [] then None
    else if ordered[0].key == key then Some(ordered[0])
    else Find(ordered[1..], key)
  }

  /** The position a column is listed at, if it is listed with one. */
  function Target(ordered: seq<Placement>, c: Column): Option<int> {
    match Find(ordered, ColumnKey(c))
    case Some(e) => e.position
    case None => None
  }

  /**
   * `repositionedColumns`: its array elements (`None` for `undefined`) and
   * what assignments at negative indices create, which are plain
   * properties that `push` and `filter` do not see.
   */
  datatype Slots = Slots(elems: seq<Option<Column>>, props: map<int, Column>)

  /** `repositionedColumns[p]` */
  function Read(s: Slots, p: int): Option<Column> {
    if p < 0 then (if p in s.props then Some(s.props[p]) else None)
    else if p < |s.elems| then s.elems[p]
    else None
  }

  /**
   * `repositionedColumns[p] = c`: an index past the end grows the array
   * with `undefined` up to it.
   */
  function Write(s: Slots, p: int, c: Column): (r: Slots)
    ensures Read(r, p) == Some(c)
    ensures forall q :: q != p ==> Read(r, q) == Read(s, q)
    ensures p < 0 ==> r.elems == s.elems
    ensures 0 <= p < |s.elems| ==> r == Slots(s.elems[p := Some(c)], s.props)
    ensures |s.elems| <= p ==>
              r.elems == s.elems + Holes(p - |s.elems|) + [Some(c)] && r.props == s.props
  {
    if p < 0 then Slots(s.elems, s.props[p := c])
    else if p < |s.elems| then Slots(s.elems[p := Some(c)], s.props)
    else Slots(s.elems + Holes(p - |s.elems|) + [Some(c)], s.props)
  }

  /** `n` slots holding `undefined`. */
  function Holes(n: nat): seq<Option<Column>> {
    seq(n, _ => None)
  }

  /** `filter((column) => column !== undefined)` over the array elements. */
  function Present(elems: seq<Option<Column>>): seq<Column> {
    if elems == [] then []
    else (if elems[0].Some? then [elems[0].value] else []) + Present(elems[1..])
  }

  /**
   * One turn of the loop for `column`. The column's reordering metadata is
   * fetched first, for every column, and that fails when the table does
   * not register the plugin. A listed column with a position whose slot is
   * empty (`!repositionedColumns[position]`) is then written there; any
   * other listed column is pushed. An unlisted column is written at the
   * position its metadata reports when that is not negative, and dropped
   * otherwise; reading that position fails when the column has none.
   */
  function Place<M>(s: Slots, column: Column, ordered: seq<Placement>,
                    forColumn: Column -> Result<M>, position: M -> Result<int>): (r: Result<Slots>)
    ensures r.Err? <==>
              forColumn(column).Err? ||
              (Find(ordered, ColumnKey(column)).None? && position(forColumn(column).value).Err?)
    ensures r.Err? ==>
              r.msg == if forColumn(column).Err? then forColumn(column).msg
                       else position(forColumn(column).value).msg
    ensures forColumn(column).Ok? && Find(ordered, ColumnKey(column)).Some? ==>
              var t := Target(ordered, column);
              if t.Some? && Read(s, t.value).None? then
                Read(r.value, t.value) == Some(column) &&
                forall q :: q != t.value ==> Read(r.value, q) == Read(s, q)
              else
                r.value == Slots(s.elems + [Some(column)], s.props)
    ensures forColumn(column).Ok? && Find(ordered, ColumnKey(column)).None? &&
            position(forColumn(column).value).Ok? ==>
              var p := position(forColumn(column).value).value;
              if p >= 0 then
                Read(r.value, p) == Some(column) && forall q :: q != p ==> Read(r.value, q) == Read(s, q)
              else r.value == s
  {
    match forColumn(column)
    case Err(msg) => Err(msg)
    case Ok(meta) =>
      match Find(ordered, ColumnKey(column))
      case None =>
        (match position(meta)
         case Err(msg) => Err(msg)
         case Ok(p) => if p >= 0 then Ok(Write(s, p, column)) else Ok(s))
      case Some(e) =>
        if e.position.Some? && Read(s, e.position.value).None? then Ok(Write(s, e.position.value, column))
        else Ok(Slots(s.elems + [Some(column)], s.props))
  }

  /**
   * The columns are listed with distinct positions, each naming one of
   * their slots.
   */
  ghost predicate Arranges(ordered: seq<Placement>, columns: seq<Column>) {
    (forall i :: 0 <= i < |columns| ==>
       Target(ordered, columns[i]).Some? && 0 <= Target(ordered, columns[i]).value < |columns|) &&
    (forall i, j :: 0 <= i < j < |columns| ==> Target(ordered, columns[i]) != Target(ordered, columns[j]))
  }

  /**
   * `reorderColumns(columns, orderedColumns)`, with `meta.forColumn(column,
   * ColumnReordering)` as `forColumn` and its `position` as `position`.
   * Without an order the columns come back unchanged. Otherwise every
   * column's metadata is fetched, so a table without the reordering plugin
   * fails whatever the order says. Every column appears in the result at
   * most as often as in the input. Apart from a metadata failure, only an
   * unlisted column whose position cannot be read makes it fail. A listing
   * that gives the columns distinct slots puts each column in its slot.
   */
  method ReorderColumns<M>(columns: seq<Column>, orderedColumns: Option<seq<Placement>>,
                           forColumn: Column -> Result<M>, position: M -> Result<int>)
    returns (r: Result<seq<Column>>)
    ensures orderedColumns.None? ==> r == Ok(columns)
    ensures r.Ok? ==> multiset(r.value) <= multiset(columns)
    ensures r.Err? ==>
              orderedColumns.Some? &&
              (exists c <- columns ::
                 forColumn(c) == Err(r.msg) ||
                 (forColumn(c).Ok? && Find(orderedColumns.value, ColumnKey(c)).None? &&
                  position(forColumn(c).value) == Err(r.msg)))
    ensures orderedColumns.Some? && (exists c <- columns :: forColumn(c).Err?) ==> r.Err?
    ensures orderedColumns.Some? && Arranges(orderedColumns.value, columns) &&
            (forall c <- columns :: forColumn(c).Ok?) ==>
              r.Ok? && |r.value| == |columns| &&
              forall i :: 0 <= i < |columns| ==> r.value[Target(orderedColumns.value, columns[i]).value] == columns[i]
  {
    if orderedColumns.None? {
      return Ok(columns);
    }
    var ordered := orderedColumns.value;
    var n := |columns|;
    ghost var arranged := Arranges(ordered, columns) && forall c <- columns :: forColumn(c).Ok?;
    var slots := Slots(Holes(n), map[]);
    PresentNone(n);
    FilledNone(n);
    for i := 0 to n
      invariant multiset(Present(slots.elems)) <= multiset(columns[..i])
      invariant arranged ==> Arrangement(ordered, columns, slots, i)
      invariant forall j :: 0 <= j < i ==> forColumn(columns[j]).Ok?
    {
      var column := columns[i];
      var next := Place(slots, column, ordered, forColumn, position);
      if next.Err? {
        assert column in columns;
        assert forColumn(column) == Err(next.msg) ||
               (forColumn(column).Ok? && Find(ordered, ColumnKey(column)).None? &&
                position(forColumn(column).value) == Err(next.msg));
        return Err(next.msg);
      }
      assert forColumn(column).Ok?;
      forall j | 0 <= j < i + 1
        ensures forColumn(columns[j]).Ok?
      {
      }
      PlaceCounts(slots, column, ordered, forColumn, position);
      PrefixStep(columns, i);
      if arranged {
        ArrangementStep(ordered, columns, slots, i, forColumn, position);
      }
      slots := next.value;
    }
    assert columns[..n] == columns;
    assert forall c <- columns :: forColumn(c).Ok?;
    var placed := Present(slots.elems);
    if arranged {
      ArrangementDone(ordered, columns, slots);
    }
    r := Ok(placed);
  }

  /**
   * Invariant of `ReorderColumns` for an arranging listing: the slots are
   * the preallocated ones, each processed column sits in its slot, the slots
   * of the columns still to come are empty, and exactly the processed
   * columns fill a slot.
   */
  ghost predicate Arrangement(ordered: seq<Placement>, columns: seq<Column>, s: Slots, i: int) {
    Arranges(ordered, columns) && 0 <= i <= |columns| &&
    |s.elems| == |columns| && s.props == map[] && Filled(s.elems) == i &&
    (forall j :: 0 <= j < i ==> s.elems[Target(ordered, columns[j]).value] == Some(columns[j])) &&
    (forall j :: i <= j < |columns| ==> s.elems[Target(ordered, columns[j]).value].None?)
  }

  lemma ArrangementStep<M>(ordered: seq<Placement>, columns: seq<Column>, s: Slots, i: int,
                           forColumn: Column -> Result<M>, position: M -> Result<int>)
    requires Arrangement(ordered, columns, s, i) && i < |columns| && forColumn(columns[i]).Ok?
    ensures Place(s, columns[i], ordered, forColumn, position) ==
            Ok(Slots(s.elems[Target(ordered, columns[i]).value := Some(columns[i])], s.props))
    ensures Arrangement(ordered, columns, Slots(s.elems[Target(ordered, columns[i]).value := Some(columns[i])], s.props), i + 1)
  {
    var p := Target(ordered, columns[i]).value;
    FilledUpdate(s.elems, p, columns[i]);
  }

  lemma ArrangementDone(ordered: seq<Placement>, columns: seq<Column>, s: Slots)
    requires Arrangement(ordered, columns, s, |columns|)
    ensures |Present(s.elems)| == |columns|
    ensures forall i :: 0 <= i < |columns| ==> Present(s.elems)[Target(ordered, columns[i]).value] == columns[i]
  {
    FilledAll(s.elems);
    PresentFull(s.elems);
  }

  /** What one turn adds to the filtered result is at most the column itself. */
  lemma PlaceCounts<M>(s: Slots, column: Column, ordered: seq<Placement>,
                       forColumn: Column -> Result<M>, position: M -> Result<int>)
    requires Place(s, column, ordered, forColumn, position).Ok?
    ensures multiset(Present(Place(s, column, ordered, forColumn, position).value.elems)) <=
            multiset(Present(s.elems)) + multiset{column}
  {
    var r := Place(s, column, ordered, forColumn, position).value;
    var t := Target(ordered, column);
    if Find(ordered, ColumnKey(column)).Some? && !(t.Some? && Read(s, t.value).None?) {
      PresentAppend(s.elems, [Some(column)]);
    } else {
      var p := if Find(ordered, ColumnKey(column)).Some? then t.value else position(forColumn(column).value).value;
      if 0 <= p {
        WriteCounts(s, p, column);
      }
    }
  }

  lemma WriteCounts(s: Slots, p: nat, column: Column)
    ensures multiset(Present(Write(s, p, column).elems)) <= multiset(Present(s.elems)) + multiset{column}
  {
    if p < |s.elems| {
      PresentUpdate(s.elems, p, column);
    } else {
      PresentAppend(s.elems + Holes(p - |s.elems|), [Some(column)]);
      PresentAppend(s.elems, Holes(p - |s.elems|));
      PresentNone(p - |s.elems|);
    }
  }

  lemma {:induction false} PresentAppend(a: seq<Option<Column>>, b: seq<Option<Column>>)
    ensures Present(a + b) == Present(a) + Present(b)
  {
    if a != [] {
      assert (a + b)[0] == a[0] && (a + b)[1..] == a[1..] + b;
      PresentAppend(a[1..], b);
    } else {
      assert a + b == b;
    }
  }

  lemma {:induction false} PresentNone(n: nat)
    ensures Present(Holes(n)) == []
  {
    if n > 0 {
      assert Holes(n)[1..] == Holes(n - 1);
      PresentNone(n - 1);
    }
  }

  lemma {:induction false} PresentUpdate(elems: seq<Option<Column>>, p: nat, c: Column)
    requires p < |elems|
    ensures multiset(Present(elems[p := Some(c)])) <= multiset(Present(elems)) + multiset{c}
  {
    if p == 0 {
      assert elems[p := Some(c)][1..] == elems[1..];
    } else {
      assert elems[p := Some(c)][1..] == elems[1..][p - 1 := Some(c)];
      PresentUpdate(elems[1..], p - 1, c);
    }
  }

  /** Filtering slots that are all filled keeps every column in its slot. */
  lemma {:induction false} PresentFull(elems: seq<Option<Column>>)
    requires forall i :: 0 <= i < |elems| ==> elems[i].Some?
    ensures |Present(elems)| == |elems|
    ensures forall i :: 0 <= i < |elems| ==> Present(elems)[i] == elems[i].value
  {
    if elems != [] {
      PresentFull(elems[1..]);
    }
  }

  lemma {:induction false} FilledNone(n: nat)
    ensures Filled(Holes(n)) == 0
  {
    if n > 0 {
      assert Holes(n)[..n - 1] == Holes(n - 1);
      FilledNone(n - 1);
    }
  }

  lemma {:induction false} FilledUpdate(slots: seq<Option<Column>>, p: nat, c: Column)
    requires p < |slots| && slots[p].None?
    ensures Filled(slots[p := Some(c)]) == Filled(slots) + 1
  {
    var last := |slots| - 1;
    if p == last {
      assert slots[p := Some(c)][..last] == slots[..last];
    } else {
      assert slots[p := Some(c)][..last] == slots[..last][p := Some(c)];
      FilledUpdate(slots[..last], p, c);
    }
  }
}
