/**
 * The column-resizing plugin's metas: a column's stored width, the
 * table's container size, the drag that moves width from the shrinking
 * visible columns to the growing one, spreading a change of the container
 * over the columns, and the reset. The visible columns are given as the
 * list of their metas; the table's `defaultColumnWidth` is handed to the
 * column getters that read it.
 */
module Resizing {
  import opened Wrappers
  import opened Sizing
  import ColumnOrdering
  import Base

  /** Contains resizable information for a particular column. */
  class ColumnMeta {
    /** `options.forColumn(column, ColumnResizing)` */
    const options: ColumnOptions
    /** `_width` */
    var stored: Option<real>
    var isResizing: bool

    constructor(options: ColumnOptions)
      ensures this.options == options && stored.None? && !isResizing
    {
      this.options := options;
      stored := None;
      isResizing := false;
    }

    /**
     * `width`: never 0; the stored width when truthy, else the `width`
     * option when there is no stored width.
     */
    function Width(defaultWidth: Option<real>): (r: real)
      reads this
      ensures r != 0.0
      ensures stored.Some? && stored.value != 0.0 ==> r == stored.value
      ensures stored.None? && InitialWidth(options).Some? ==> r == InitialWidth(options).value
    {
      Sizing.Width(stored, options, defaultWidth)
    }

    /** `canShrink`: since the width is never 0, a width above the minimum. */
    predicate CanShrink(defaultWidth: Option<real>)
      reads this
      ensures CanShrink(defaultWidth) <==> Width(defaultWidth) > MinWidth(options)
    {
      Sizing.CanShrink(Width(defaultWidth), options)
    }

    /** `roomToShrink`: how far the width is above the minimum, positive exactly for a column that can shrink. */
    function RoomToShrink(defaultWidth: Option<real>): (r: real)
      reads this
      ensures r == Width(defaultWidth) - MinWidth(options)
      ensures r > 0.0 <==> CanShrink(defaultWidth)
    {
      Sizing.RoomToShrink(Width(defaultWidth), options)
    }

    /**
     * `style`: the width and the minimum width, each only when truthy,
     * which they always are; the numbers are left unrendered.
     */
    function Style(defaultWidth: Option<real>): (r: seq<(string, real)>)
      reads this
      ensures r == [("width", Width(defaultWidth)), ("minWidth", MinWidth(options))]
    {
      var w := Width(defaultWidth);
      var m := MinWidth(options);
      (if w != 0.0 then [("width", w)] else []) + (if m != 0.0 then [("minWidth", m)] else [])
    }
  }

  /**
   * `hasResizeHandle`: a column has a handle when it has a visible column
   * before it and both are resizable; a column that is not visible fails.
   */
  function HasResizeHandle(visible: seq<ColumnMeta>, column: ColumnMeta, table: TableOptions): (r: Result<bool>)
    ensures r.Err? <==> column !in visible
    ensures r.Err? ==> r.msg == Base.NotInTableMessage
    ensures r == Ok(true) <==>
              column in visible && Base.IndexOf(visible, column) > 0 &&
              IsResizableAsWritten(column.options, table) &&
              IsResizableAsWritten(visible[Base.IndexOf(visible, column) - 1].options, table)
  {
    match Base.Previous(visible, column)
    case Err(msg) => Err(msg)
    case Ok(None) => Ok(false)
    case Ok(Some(previous)) => Ok(IsResizableAsWritten(column.options, table) && IsResizableAsWritten(previous.options, table))
  }

  // ---------------------------------------------------------------------
  // Lists of metas

  /** The widths of the metas, in order. */
  function WidthsOf(ms: seq<ColumnMeta>, defaultWidth: Option<real>): (r: seq<real>)
    reads set m | m in ms
    ensures |r| == |ms| && forall k :: 0 <= k < |ms| ==> r[k] == ms[k].Width(defaultWidth)
  {
    if ms == [] then [] else WidthsOf(ms[..|ms| - 1], defaultWidth) + [ms[|ms| - 1].Width(defaultWidth)]
  }

  /** The stored widths of the metas, in order. */
  function StoredOf(ms: seq<ColumnMeta>): (r: seq<Option<real>>)
    reads set m | m in ms
    ensures |r| == |ms| && forall k :: 0 <= k < |ms| ==> r[k] == ms[k].stored
  {
    if ms == [] then [] else StoredOf(ms[..|ms| - 1]) + [ms[|ms| - 1].stored]
  }

  /** The minimum widths of the metas, in order. */
  function MinsOf(ms: seq<ColumnMeta>): (r: seq<real>)
    ensures |r| == |ms|
  {
    seq(|ms|, k requires 0 <= k < |ms| => MinWidth(ms[k].options))
  }

  /** `.filter((meta) => meta.canShrink)` */
  function Shrinkable(ms: seq<ColumnMeta>, defaultWidth: Option<real>): (r: seq<ColumnMeta>)
    reads set m | m in ms
    ensures forall m <- r :: m in ms && m.CanShrink(defaultWidth)
    ensures forall m <- ms :: m.CanShrink(defaultWidth) ==> m in r
  {
    if ms == [] then []
    else
      var n := |ms| - 1;
      Shrinkable(ms[..n], defaultWidth) + (if ms[n].CanShrink(defaultWidth) then [ms[n]] else [])
  }

  lemma {:induction false} ShrinkableDistinct(ms: seq<ColumnMeta>, defaultWidth: Option<real>)
    requires ColumnOrdering.Distinct(ms)
    ensures ColumnOrdering.Distinct(Shrinkable(ms, defaultWidth))
  {
    if ms != [] {
      var n := |ms| - 1;
      assert ColumnOrdering.Distinct(ms[..n]);
      ShrinkableDistinct(ms[..n], defaultWidth);
      assert ms[n] !in ms[..n];
    }
  }

  /** `.filter((meta) => meta.isResizable && (delta < 0 ? meta.canShrink : true))` */
  function Resizable(ms: seq<ColumnMeta>, table: TableOptions, defaultWidth: Option<real>, delta: real): (r: seq<ColumnMeta>)
    reads set m | m in ms
    ensures forall m <- r :: m in ms && IsResizableAsWritten(m.options, table) && (delta < 0.0 ==> m.CanShrink(defaultWidth))
    ensures forall m <- ms :: IsResizableAsWritten(m.options, table) && (delta < 0.0 ==> m.CanShrink(defaultWidth)) ==> m in r
  {
    if ms == [] then []
    else
      var n := |ms| - 1;
      var m := ms[n];
      Resizable(ms[..n], table, defaultWidth, delta) +
      (if IsResizableAsWritten(m.options, table) && (delta < 0.0 ==> m.CanShrink(defaultWidth)) then [m] else [])
  }

  lemma {:induction false} ResizableDistinct(ms: seq<ColumnMeta>, table: TableOptions, defaultWidth: Option<real>, delta: real)
    requires ColumnOrdering.Distinct(ms)
    ensures ColumnOrdering.Distinct(Resizable(ms, table, defaultWidth, delta))
  {
    if ms != [] {
      var n := |ms| - 1;
      assert ColumnOrdering.Distinct(ms[..n]);
      ResizableDistinct(ms[..n], table, defaultWidth, delta);
      assert ms[n] !in ms[..n];
    }
  }

  /** `totalInitialColumnWidths`: the initial widths added up, a missing one as 0. */
  function TotalInitialWidths(ms: seq<ColumnMeta>): real {
    if ms == [] then 0.0
    else
      var n := |ms| - 1;
      var w := InitialWidth(ms[n].options);
      TotalInitialWidths(ms[..n]) + (if w.Some? then w.value else 0.0)
  }

  /** `columnsWithoutInitialWidth` */
  function WithoutInitialWidth(ms: seq<ColumnMeta>): seq<ColumnMeta> {
    if ms == [] then []
    else
      var n := |ms| - 1;
      WithoutInitialWidth(ms[..n]) + (if InitialWidth(ms[n].options).None? then [ms[n]] else [])
  }

  /** Exactly the columns without an initial width are kept. */
  lemma {:induction false} WithoutInitialWidthKeeps(ms: seq<ColumnMeta>)
    ensures forall m <- WithoutInitialWidth(ms) :: m in ms && InitialWidth(m.options).None?
    ensures forall m <- ms :: InitialWidth(m.options).None? ==> m in WithoutInitialWidth(ms)
  {
    if ms != [] {
      var n := |ms| - 1;
      WithoutInitialWidthKeeps(ms[..n]);
      assert ms == ms[..n] + [ms[n]];
    }
  }

  // ---------------------------------------------------------------------
  // Choosing the columns of a drag

  /**
   * The column that grows: dragging right grows the visible column next
   * to the handle (the next one with the handle on the right, the previous
   * one with it on the left, the default); dragging left grows the column
   * itself.
   */
  function Growing<T(==)>(visible: seq<T>, column: T, delta: real, handle: Option<string>): (r: Result<Option<T>>)
    ensures delta <= 0.0 ==> r == Ok(Some(column))
    ensures delta > 0.0 ==> (r.Err? <==> column !in visible)
    ensures r.Err? ==> r.msg == Base.NotInTableMessage
    ensures delta > 0.0 && r.Ok? && r.value.Some? ==> r.value.value in visible
  {
    var position := if handle.Some? then handle.value else "left";
    if delta > 0.0 then
      (if position == "right" then Base.Next(visible, column) else Base.Previous(visible, column))
    else Ok(Some(column))
  }

  /**
   * Dragging right, the growing column is the neighbour of the dragged
   * column on the handle's side; it is missing only when the dragged
   * column is the last (handle on the right) or the first (handle on the
   * left) visible column.
   */
  lemma GrowingIsNeighbour<T>(visible: seq<T>, column: T, delta: real, handle: Option<string>)
    requires ColumnOrdering.Distinct(visible) && column in visible && delta > 0.0
    ensures var r := Growing(visible, column, delta, handle);
            r.Ok? &&
            (handle == Some("right") ==>
               (r.value.None? <==> Base.IndexOf(visible, column) == |visible| - 1) &&
               (r.value.Some? ==> Base.Previous(visible, r.value.value) == Ok(Some(column)))) &&
            (handle != Some("right") ==>
               (r.value.None? <==> Base.IndexOf(visible, column) == 0) &&
               (r.value.Some? ==> Base.Next(visible, r.value.value) == Ok(Some(column))))
  {
    var r := Growing(visible, column, delta, handle);
    if handle == Some("right") {
      if r.value.Some? {
        Base.NextPreviousInverse(visible, column, r.value.value);
      }
    } else if r.value.Some? {
      var i := Base.IndexOf(visible, column);
      var g := r.value.value;
      assert g == visible[i - 1];
      assert Base.IndexOf(visible, g) == i - 1;
    }
  }

  function Reversed<T>(s: seq<T>): (r: seq<T>)
    ensures |r| == |s|
  {
    seq(|s|, k requires 0 <= k < |s| => s[|s| - 1 - k])
  }

  /**
   * The columns that may shrink, nearest first: the visible columns after
   * the growing one when dragging right, those before it in reverse order
   * otherwise.
   */
  function Candidates<T(==)>(visible: seq<T>, growing: T, delta: real): seq<T> {
    if delta > 0.0 then Base.After(visible, growing) else Reversed(Base.Before(visible, growing))
  }

  /**
   * For a visible growing column, the candidates are the columns on the
   * shrinking side of it, nearest first.
   */
  lemma {:induction false} CandidatesNearestFirst<T>(visible: seq<T>, growing: T, delta: real)
    requires growing in visible
    ensures var c := Candidates(visible, growing, delta);
            var i := Base.IndexOf(visible, growing);
            (delta > 0.0 ==> |c| == |visible| - i - 1 && forall k :: 0 <= k < |c| ==> c[k] == visible[i + 1 + k]) &&
            (delta <= 0.0 ==> |c| == i && forall k :: 0 <= k < |c| ==> c[k] == visible[i - 1 - k])
  {
    Base.BeforeAfterSlices(visible, growing);
    var i := Base.IndexOf(visible, growing);
    if delta > 0.0 {
      var c := Base.After(visible, growing);
      assert c == visible[i + 1..];
    } else {
      var b := Base.Before(visible, growing);
      assert b == visible[..i];
      var c := Reversed(b);
      forall k | 0 <= k < |c|
        ensures c[k] == visible[i - 1 - k]
      {
        assert c[k] == b[i - 1 - k];
      }
    }
  }

  // ---------------------------------------------------------------------
  // Moving width

  /**
   * After a drag moved `amount` over `shrink`, whose widths were `widths`:
   * the shrinking columns give their losses nearest first, each storing
   * its old width less its loss, and the growing column, whose stored
   * width was `grownFrom`, gained them one after the other.
   */
  ghost predicate Moved(growing: ColumnMeta, shrink: seq<ColumnMeta>, defaultWidth: Option<real>, amount: real,
                        grownFrom: Option<real>, widths: seq<real>)
    reads growing, set m | m in shrink
  {
    |widths| == |shrink| &&
    var losses := Losses(Minus(widths, MinsOf(shrink)), amount);
    growing.stored == Grown(grownFrom, growing.options, defaultWidth, losses, |losses|) &&
    forall k :: 0 <= k < |shrink| ==> shrink[k].stored == Some(widths[k] - losses[k])
  }

  lemma MovedIntro(growing: ColumnMeta, shrink: seq<ColumnMeta>, defaultWidth: Option<real>, amount: real,
                   grownFrom: Option<real>, widths: seq<real>, losses: seq<real>)
    requires |widths| == |shrink| && losses == Losses(Minus(widths, MinsOf(shrink)), amount)
    requires growing.stored == Grown(grownFrom, growing.options, defaultWidth, losses, |shrink|)
    requires forall k :: 0 <= k < |shrink| ==> shrink[k].stored == Some(widths[k] - losses[k])
    ensures Moved(growing, shrink, defaultWidth, amount, grownFrom, widths)
  {
  }

  /** The `while` loop of `resizeColumn`. */
  method Shift(growing: ColumnMeta, shrink: seq<ColumnMeta>, defaultWidth: Option<real>, amount: real,
               ghost widths: seq<real>, ghost rooms: seq<real>, ghost left: seq<real>, ghost losses: seq<real>)
    requires ColumnOrdering.Distinct(shrink) && growing !in shrink
    requires |widths| == |rooms| == |losses| == |shrink| && |left| == |shrink| + 1 && left[0] == amount
    requires forall k {:trigger widths[k]} :: 0 <= k < |shrink| ==> shrink[k].Width(defaultWidth) == widths[k]
    requires forall k {:trigger rooms[k]} :: 0 <= k < |shrink| ==> rooms[k] == widths[k] - MinWidth(shrink[k].options)
    requires forall k {:trigger losses[k]} :: 0 <= k < |shrink| ==>
               losses[k] == Min(left[k], rooms[k]) && left[k + 1] == left[k] - losses[k]
    modifies (set m | m in shrink)`stored, growing`stored
    ensures growing.stored == Grown(old(growing.stored), growing.options, defaultWidth, losses, |shrink|)
    ensures forall k :: 0 <= k < |shrink| ==> shrink[k].stored == Some(widths[k] - losses[k])
  {
    ghost var grownFrom := growing.stored;
    var remainder := amount;
    var i := 0;
    while i < |shrink|
      invariant 0 <= i <= |shrink|
      invariant remainder == left[i]
      invariant growing.stored == Grown(grownFrom, growing.options, defaultWidth, losses, i)
      invariant forall k :: 0 <= k < |shrink| ==>
                  shrink[k].stored == if k < i then Some(widths[k] - losses[k]) else old(shrink[k].stored)
    {
      var shrinking := shrink[i];
      assert shrinking.Width(defaultWidth) == widths[i];
      label Before:
      var actualDelta := ShiftOne(growing, shrinking, defaultWidth, remainder);
      assert actualDelta == losses[i];
      forall k | 0 <= k < |shrink|
        ensures shrink[k].stored == if k < i + 1 then Some(widths[k] - losses[k]) else old(shrink[k].stored)
      {
        if k != i {
          assert shrink[k] != shrinking;
        }
      }
      remainder := remainder - actualDelta;
      i := i + 1;
    }
  }

  /** One pass of that loop: `shrinking` gives up what it can of `remainder` to `growing`. */
  method ShiftOne(growing: ColumnMeta, shrinking: ColumnMeta, defaultWidth: Option<real>, remainder: real)
    returns (actualDelta: real)
    requires growing != shrinking
    modifies growing`stored, shrinking`stored
    ensures actualDelta == Min(remainder, RoomToShrink(old(shrinking.Width(defaultWidth)), shrinking.options))
    ensures growing.stored == Some(old(growing.Width(defaultWidth)) + actualDelta)
    ensures shrinking.stored == Some(old(shrinking.Width(defaultWidth)) - actualDelta)
  {
    var grownWidth := growing.Width(defaultWidth);
    var shrinkingWidth := shrinking.Width(defaultWidth);
    actualDelta := Min(remainder, RoomToShrink(shrinkingWidth, shrinking.options));
    growing.stored := Some(grownWidth + actualDelta);
    shrinking.stored := Some(shrinkingWidth - actualDelta);
  }

  /** `columnDelta`: an equal share of the change. */
  function ColumnDelta(delta: real, count: nat): (r: real)
    requires count > 0
    ensures r * count as real == delta
  {
    delta / count as real
  }

  /**
   * `distributeDelta`'s result: a zero change leaves every column alone;
   * otherwise the resizable columns (only those that can shrink, for a
   * negative change) each take an equal share of it, but stay at least
   * at their minimum, and every other visible column is left alone.
   */
  twostate predicate Distributed(visible: seq<ColumnMeta>, table: TableOptions, defaultWidth: Option<real>, delta: real)
    reads set m | m in visible
  {
    if delta == 0.0 then
      forall m <- visible :: m.stored == old(m.stored)
    else
      var picked := old(Resizable(visible, table, defaultWidth, delta));
      var widths := old(WidthsOf(picked, defaultWidth));
      (forall k :: 0 <= k < |picked| ==>
         picked[k].stored == Some(Spread(widths, MinsOf(picked), ColumnDelta(delta, |picked|))[k])) &&
      forall m <- visible :: m !in picked ==> m.stored == old(m.stored)
  }

  /**
   * `distributeDelta(delta, visibleColumns)`, with the table's options and
   * the default column width that the columns' width getters read.
   */
  method DistributeDelta(delta: real, visible: seq<ColumnMeta>, table: TableOptions, defaultWidth: Option<real>)
    requires ColumnOrdering.Distinct(visible)
    modifies (set m | m in visible)`stored
    ensures Distributed(visible, table, defaultWidth, delta)
  {
    if delta == 0.0 {
      return;
    }
    var picked := Resizable(visible, table, defaultWidth, delta);
    ResizableDistinct(visible, table, defaultWidth, delta);
    if |picked| == 0 {
      return;
    }
    Share(picked, defaultWidth, ColumnDelta(delta, |picked|));
  }

  /**
   * The loop of `distributeDelta`: every column of `picked` takes the
   * share, but stays at least at its minimum width.
   */
  method Share(picked: seq<ColumnMeta>, defaultWidth: Option<real>, share: real)
    requires ColumnOrdering.Distinct(picked)
    modifies (set m | m in picked)`stored
    ensures forall k :: 0 <= k < |picked| ==>
              picked[k].stored == Some(Spread(old(WidthsOf(picked, defaultWidth)), MinsOf(picked), share)[k])
  {
    ghost var widths := WidthsOf(picked, defaultWidth);
    ghost var targets := Spread(widths, MinsOf(picked), share);
    for i := 0 to |picked|
      invariant forall k :: 0 <= k < i ==> picked[k].stored == Some(targets[k])
      invariant forall k :: i <= k < |picked| ==> picked[k].stored == old(picked[k].stored)
    {
      var column := picked[i];
      assert column.Width(defaultWidth) == widths[i];
      var width := Max(column.Width(defaultWidth) + share, MinWidth(column.options));
      assert width == targets[i];
      label Before:
      column.stored := Some(width);
      forall k | 0 <= k < |picked| && k != i
        ensures picked[k].stored == old@Before(picked[k].stored)
      {
        assert picked[k] != column;
      }
    }
  }

  /**
   * The default column width for a container of the given width: what the
   * initial widths leave of it, shared by the visible columns without one;
   * missing without a container width (and, here, when every visible
   * column has an initial width, where the source divides by zero).
   */
  function DefaultWidthFor(containerWidth: Option<real>, visible: seq<ColumnMeta>): (r: Option<real>)
    ensures r.None? <==>
              (containerWidth.None? || containerWidth == Some(0.0) || |WithoutInitialWidth(visible)| == 0)
    ensures r.Some? ==>
              r.value * |WithoutInitialWidth(visible)| as real == containerWidth.value - TotalInitialWidths(visible)
  {
    var count := |WithoutInitialWidth(visible)|;
    if containerWidth.None? || containerWidth.value == 0.0 || count == 0 then None
    else Some(ColumnDelta(containerWidth.value - TotalInitialWidths(visible), count))
  }


  /** Contains resizable and width information regarding the table as a whole. */
  class TableMeta {
    /** `options.forTable(table, ColumnResizing)` */
    const options: TableOptions
    var scrollContainerHeight: Option<real>
    var scrollContainerWidth: Option<real>

    constructor(options: TableOptions)
      ensures this.options == options && scrollContainerWidth.None? && scrollContainerHeight.None?
    {
      this.options := options;
      scrollContainerHeight := None;
      scrollContainerWidth := None;
    }

    /**
     * `defaultColumnWidth`: none without a truthy container width (or
     * without a column lacking an initial width); otherwise the container
     * width left after the initial widths, shared evenly by the columns
     * without one.
     */
    function DefaultColumnWidth(visible: seq<ColumnMeta>): (r: Option<real>)
      reads this
      ensures r.None? <==>
                (scrollContainerWidth.None? || scrollContainerWidth == Some(0.0) ||
                 |WithoutInitialWidth(visible)| == 0)
      ensures r.Some? ==>
                r.value * |WithoutInitialWidth(visible)| as real ==
                scrollContainerWidth.value - TotalInitialWidths(visible)
    {
      DefaultWidthFor(scrollContainerWidth, visible)
    }

    /**
     * `reset`: with a known container width, every visible column forgets
     * its stored width; otherwise nothing changes.
     */
    method Reset(visible: seq<ColumnMeta>)
      modifies (set m | m in visible)`stored
      ensures scrollContainerWidth.None? || scrollContainerWidth == Some(0.0) ==>
                forall m <- visible :: m.stored == old(m.stored)
      ensures scrollContainerWidth.Some? && scrollContainerWidth != Some(0.0) ==>
                forall m <- visible :: m.stored.None?
    {
      if scrollContainerWidth.None? || scrollContainerWidth.value == 0.0 {
        return;
      }
      for i := 0 to |visible|
        invariant forall k :: 0 <= k < i ==> visible[k].stored.None?
      {
        visible[i].stored := None;
      }
    }

    /**
     * `onTableResize`, with the container's measured width and height and
     * the gap between its cells as parameters: it records the container
     * size and spreads the difference between the container and the
     * visible columns' total width (`totalVisibleColumnsWidth`, the sum of
     * their widths read with the new size's default width) over them. The
     * size is recorded after the columns are changed here; the widths are
     * read with the new size's default width all the same, so the outcome
     * is the same.
     */
    method OnTableResize(visible: seq<ColumnMeta>, width: real, height: real, totalGap: real)
      returns (ghost delta: real)
      requires ColumnOrdering.Distinct(visible)
      modifies this`scrollContainerWidth, this`scrollContainerHeight, (set m | m in visible)`stored
      ensures scrollContainerWidth == Some(width) && scrollContainerHeight == Some(height)
      ensures delta == width - old(Sum(WidthsOf(visible, DefaultWidthFor(Some(width), visible)))) - totalGap
      ensures Distributed(visible, options, DefaultColumnWidth(visible), delta)
    {
      var defaultWidth := DefaultWidthFor(Some(width), visible);
      var diff := width - Sum(WidthsOf(visible, defaultWidth)) - totalGap;
      delta := diff;
      DistributeDelta(diff, visible, options, defaultWidth);
      scrollContainerWidth := Some(width);
      scrollContainerHeight := Some(height);
    }

    /**
     * `resizeColumn`: a zero delta changes nothing; otherwise the growing
     * column takes from the candidates that can shrink, nearest first, as
     * much of the delta as their room allows. Only choosing the growing
     * column can fail, when the dragged column is not visible.
     */
    method ResizeColumn(visible: seq<ColumnMeta>, column: ColumnMeta, delta: real) returns (r: Outcome)
      requires ColumnOrdering.Distinct(visible)
      modifies (set m | m in visible)`stored, column`stored
      ensures var g := Growing(visible, column, delta, options.handlePosition);
              (r.Fail? <==> delta != 0.0 && g.Err?) && (r.Fail? ==> r.msg == Base.NotInTableMessage)
      ensures var g := Growing(visible, column, delta, options.handlePosition);
              delta == 0.0 || !(g.Ok? && g.value.Some?) ==>
                column.stored == old(column.stored) && forall m <- visible :: m.stored == old(m.stored)
      ensures var g := Growing(visible, column, delta, options.handlePosition);
              var defaultWidth := DefaultColumnWidth(visible);
              delta != 0.0 && g.Ok? && g.value.Some? ==>
                var shrink := old(Shrinkable(Candidates(visible, g.value.value, delta), defaultWidth));
                Moved(g.value.value, shrink, defaultWidth, Abs(delta),
                      old(g.value.value.stored), old(WidthsOf(shrink, defaultWidth))) &&
                forall m <- visible :: m !in shrink && m != g.value.value ==> m.stored == old(m.stored)
    {
      if delta == 0.0 {
        return Pass;
      }
      var growingColumn := Growing(visible, column, delta, options.handlePosition);
      if growingColumn.Err? {
        return Fail(growingColumn.msg);
      }
      if growingColumn.value.None? {
        return Pass;
      }
      var growing := growingColumn.value.value;
      var defaultWidth := DefaultColumnWidth(visible);
      var candidates := Candidates(visible, growing, delta);
      CandidatesDistinct(visible, growing, delta);
      var shrink := Shrinkable(candidates, defaultWidth);
      ShrinkableDistinct(candidates, defaultWidth);
      ghost var widths := WidthsOf(shrink, defaultWidth);
      ghost var rooms := Minus(widths, MinsOf(shrink));
      ghost var losses := Losses(rooms, Abs(delta));
      ghost var left := LossSchedule(rooms, Abs(delta));
      Shift(growing, shrink, defaultWidth, Abs(delta), widths, rooms, left, losses);
      MovedIntro(growing, shrink, defaultWidth, Abs(delta), old(growing.stored), widths, losses);
      r := Pass;
    }
  }

  /**
   * The candidates of a drag are distinct visible columns, none of them
   * the growing column, whether or not that column is visible.
   */
  lemma CandidatesDistinct(visible: seq<ColumnMeta>, growing: ColumnMeta, delta: real)
    requires ColumnOrdering.Distinct(visible)
    ensures var c := Candidates(visible, growing, delta);
            ColumnOrdering.Distinct(c) && growing !in c && forall m <- c :: m in visible
  {
    var i := Base.IndexOf(visible, growing);
    var lo := Base.SliceBound(|visible|, i + 1);
    var hi := Base.SliceBound(|visible|, i);
    if delta > 0.0 {
      assert Base.After(visible, growing) == visible[lo..];
    } else {
      var before := Base.Before(visible, growing);
      assert before == visible[..hi];
      var c := Reversed(before);
      assert forall k :: 0 <= k < |c| ==> c[k] == visible[hi - 1 - k];
      forall a, b | 0 <= a < b < |c|
        ensures c[a] != c[b]
      {
        assert c[a] == visible[hi - 1 - a] && c[b] == visible[hi - 1 - b];
      }
      assert forall m <- c :: m in visible;
    }
  }
}
