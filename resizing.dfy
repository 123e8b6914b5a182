/**
 * The column-resizing plugin's arithmetic: column options with their
 * falsy entries dropped, the width a column shows, and how a drag moves
 * width from the shrinking columns to the growing one. Widths are exact
 * reals.
 */
module Sizing {
  import opened Wrappers

  /** The plugin's column options, as its `ColumnOptions` interface declares them. */
  datatype ColumnOptions = ColumnOptions(width: Option<real>, minWidth: Option<real>, isResizable: Option<bool>)

  /** The plugin's table options. */
  datatype TableOptions = TableOptions(enabled: Option<bool>, handlePosition: Option<string>)

  /** `DEFAULT_COLUMN_OPTIONS.minWidth` */
  const DefaultMinWidth: real := 128.0

  function Min(a: real, b: real): real {
    if a <= b then a else b
  }

  function Max(a: real, b: real): real {
    if a >= b then a else b
  }

  function Abs(a: real): real {
    if a < 0.0 then -a else a
  }

  /** The options once the entries with a falsy value (0, `false`) are dropped. */
  function Filtered(o: ColumnOptions): (f: ColumnOptions)
    ensures f.width.Some? <==> o.width.Some? && o.width.value != 0.0
    ensures f.minWidth.Some? <==> o.minWidth.Some? && o.minWidth.value != 0.0
    ensures f.isResizable.Some? <==> o.isResizable.Some? && o.isResizable.value
    ensures f.width.Some? ==> f.width == o.width
    ensures f.minWidth.Some? ==> f.minWidth == o.minWidth
    ensures f.isResizable.Some? ==> f.isResizable == o.isResizable
  {
    ColumnOptions(
      if o.width == Some(0.0) then None else o.width,
      if o.minWidth == Some(0.0) then None else o.minWidth,
      if o.isResizable == Some(false) then None else o.isResizable)
  }

  /** `minWidth`: the option when truthy, else 128; never 0. */
  function MinWidth(o: ColumnOptions): (r: real)
    ensures r != 0.0
    ensures o.minWidth.Some? && o.minWidth.value != 0.0 ==> r == o.minWidth.value
    ensures o.minWidth.None? || o.minWidth == Some(0.0) ==> r == DefaultMinWidth
  {
    var f := Filtered(o);
    if f.minWidth.Some? then f.minWidth.value else DefaultMinWidth
  }

  /** `initialWidth`: the `width` option when truthy. */
  function InitialWidth(o: ColumnOptions): Option<real> {
    Filtered(o).width
  }

  /** The table's `isResizable`: its `enabled` option, else true. */
  function TableResizable(t: TableOptions): bool {
    if t.enabled.Some? then t.enabled.value else true
  }

  /**
   * A column's `isResizable` as written: `options.isResizable` after the
   * falsy entries were dropped, so `false` falls back to the table.
   */
  function IsResizableAsWritten(o: ColumnOptions, t: TableOptions): (r: bool)
    ensures r <==> o.isResizable == Some(true) || TableResizable(t)
    ensures r == (IsResizable(o, t) || (o.isResizable == Some(false) && TableResizable(t)))
  {
    var f := Filtered(o);
    if f.isResizable.Some? then f.isResizable.value else TableResizable(t)
  }

  /**
   * The corrected `isResizable`: the column's own option when given, so
   * `false` opts the column out, else the table's.
   */
  function IsResizable(o: ColumnOptions, t: TableOptions): (r: bool)
    ensures r <==> o.isResizable == Some(true) || (o.isResizable.None? && TableResizable(t))
  {
    if o.isResizable.Some? then o.isResizable.value else TableResizable(t)
  }

  /**
   * As written, a column cannot opt out of resizing on a resizable table,
   * though the corrected reading honours the option; for every other
   * option the two agree.
   */
  lemma ColumnOptOutIgnored(o: ColumnOptions, t: TableOptions)
    ensures o.isResizable == Some(false) && TableResizable(t) ==>
              IsResizableAsWritten(o, t) && !IsResizable(o, t)
    ensures o.isResizable != Some(false) ==> IsResizableAsWritten(o, t) == IsResizable(o, t)
  {
  }

  /**
   * The `width` getter: the stored width, else the initial width; when that
   * is missing or 0, the table's default width but at least the minimum
   * width, or the minimum width when there is no default.
   */
  function Width(stored: Option<real>, o: ColumnOptions, defaultWidth: Option<real>): (r: real)
    ensures r != 0.0
    ensures stored.Some? && stored.value != 0.0 ==> r == stored.value
    ensures stored.None? && InitialWidth(o).Some? ==> r == InitialWidth(o).value
    ensures (stored == Some(0.0) || (stored.None? && InitialWidth(o).None?)) ==>
              r >= MinWidth(o) &&
              (defaultWidth.None? || defaultWidth == Some(0.0) ==> r == MinWidth(o)) &&
              (defaultWidth.Some? && defaultWidth.value != 0.0 ==> r == Max(defaultWidth.value, MinWidth(o)))
  {
    var w := if stored.Some? then stored else InitialWidth(o);
    if w.None? || w.value == 0.0 then
      (if defaultWidth.Some? && defaultWidth.value != 0.0 then Max(defaultWidth.value, MinWidth(o)) else MinWidth(o))
    else w.value
  }

  /** `canShrink`: a width above the minimum. */
  predicate CanShrink(width: real, o: ColumnOptions) {
    width != 0.0 && width > MinWidth(o)
  }

  /** `roomToShrink`: how far the width is above the minimum. */
  function RoomToShrink(width: real, o: ColumnOptions): (r: real)
    ensures CanShrink(width, o) ==> r > 0.0 && width - r == MinWidth(o)
  {
    if width != 0.0 then width - MinWidth(o) else 0.0
  }

  // ---------------------------------------------------------------------
  // Moving width

  function Sum(xs: seq<real>): real {
    if xs == [] then 0.0 else Sum(xs[..|xs| - 1]) + xs[|xs| - 1]
  }

  ghost predicate NonNegative(xs: seq<real>) {
    forall k :: 0 <= k < |xs| ==> xs[k] >= 0.0
  }

  /** The element-wise difference of two sequences of the same length. */
  function Minus(a: seq<real>, b: seq<real>): (r: seq<real>)
    requires |a| == |b|
    ensures |r| == |a|
  {
    seq(|a|, k requires 0 <= k < |a| => a[k] - b[k])
  }

  /**
   * What each shrinking column gives, nearest first: as much of the
   * remaining amount as its room allows.
   */
  function Losses(rooms: seq<real>, remainder: real): (r: seq<real>)
    ensures |r| == |rooms|
  {
    if rooms == [] then []
    else
      var taken := Min(remainder, rooms[0]);
      [taken] + Losses(rooms[1..], remainder - taken)
  }

  /** What is left of `amount` once the first `n` rooms have taken their losses. */
  function Remaining(rooms: seq<real>, amount: real, n: nat): real
    requires n <= |rooms|
  {
    if n == 0 then amount
    else
      var left := Remaining(rooms, amount, n - 1);
      left - Min(left, rooms[n - 1])
  }

  lemma {:induction false} RemainingTail(rooms: seq<real>, amount: real, n: nat)
    requires n < |rooms|
    ensures Remaining(rooms, amount, n + 1) == Remaining(rooms[1..], amount - Min(amount, rooms[0]), n)
  {
    if n > 0 {
      RemainingTail(rooms, amount, n - 1);
    }
  }

  /** Counted from the front, the `k`-th loss is what is left, up to its room. */
  lemma {:induction false} LossesIndexed(rooms: seq<real>, amount: real, k: nat)
    requires k < |rooms|
    ensures Losses(rooms, amount)[k] == Min(Remaining(rooms, amount, k), rooms[k])
  {
    if k > 0 {
      var taken := Min(amount, rooms[0]);
      LossesIndexed(rooms[1..], amount - taken, k - 1);
      RemainingTail(rooms, amount, k - 1);
    }
  }

  /**
   * The losses step by step: what is left of the amount before each
   * shrinking column, each loss taken from it up to the column's room.
   */
  lemma LossSchedule(rooms: seq<real>, amount: real) returns (left: seq<real>)
    ensures |left| == |rooms| + 1 && left[0] == amount
    ensures forall k {:trigger Losses(rooms, amount)[k]} :: 0 <= k < |rooms| ==>
              Losses(rooms, amount)[k] == Min(left[k], rooms[k]) &&
              left[k + 1] == left[k] - Losses(rooms, amount)[k]
  {
    left := seq(|rooms| + 1, k requires 0 <= k <= |rooms| => Remaining(rooms, amount, k));
    forall k | 0 <= k < |rooms|
      ensures Losses(rooms, amount)[k] == Min(left[k], rooms[k])
    {
      LossesIndexed(rooms, amount, k);
    }
  }

  lemma {:induction false} SumPrepend(x: real, xs: seq<real>)
    ensures Sum([x] + xs) == x + Sum(xs)
  {
    if xs != [] {
      var n := |xs| - 1;
      assert ([x] + xs)[..|[x] + xs| - 1] == [x] + xs[..n];
      SumPrepend(x, xs[..n]);
    } else {
      assert [x] + xs == [x];
    }
  }

  lemma {:induction false} SumNonNegative(xs: seq<real>)
    requires NonNegative(xs)
    ensures Sum(xs) >= 0.0
  {
    if xs != [] {
      SumNonNegative(xs[..|xs| - 1]);
    }
  }

  /**
   * Nearest first: a column gives what is left of the amount after the
   * rooms of the columns nearer the growing one, up to its own room; so it
   * never gives more than its room, nor less than 0.
   */
  lemma {:induction false} LossesNearestFirst(rooms: seq<real>, remainder: real, k: nat)
    requires remainder >= 0.0 && NonNegative(rooms)
    requires k < |rooms|
    ensures Losses(rooms, remainder)[k] == Min(rooms[k], Max(0.0, remainder - Sum(rooms[..k])))
    ensures 0.0 <= Losses(rooms, remainder)[k] <= rooms[k]
  {
    var taken := Min(remainder, rooms[0]);
    if k == 0 {
      assert rooms[..0] == [];
    } else {
      var tail := rooms[1..];
      LossesNearestFirst(tail, remainder - taken, k - 1);
      assert rooms[..k] == [rooms[0]] + tail[..k - 1];
      SumPrepend(rooms[0], tail[..k - 1]);
      assert NonNegative(tail[..k - 1]);
      SumNonNegative(tail[..k - 1]);
    }
  }

  /**
   * With rooms that are not negative and an amount that is not negative,
   * the losses add up to the amount or the total room, whichever is
   * smaller.
   */
  lemma {:induction false} LossesTotal(rooms: seq<real>, remainder: real)
    requires remainder >= 0.0 && NonNegative(rooms)
    ensures Sum(Losses(rooms, remainder)) == Min(remainder, Sum(rooms))
  {
    if rooms != [] {
      var taken := Min(remainder, rooms[0]);
      var tail := rooms[1..];
      LossesTotal(tail, remainder - taken);
      SumPrepend(taken, Losses(tail, remainder - taken));
      assert rooms == [rooms[0]] + tail;
      SumPrepend(rooms[0], tail);
      assert NonNegative(tail);
      SumNonNegative(tail);
    }
  }

  lemma {:induction false} SumMinus(a: seq<real>, b: seq<real>)
    requires |a| == |b|
    ensures Sum(Minus(a, b)) == Sum(a) - Sum(b)
  {
    if a != [] {
      var n := |a| - 1;
      SumMinus(a[..n], b[..n]);
      assert Minus(a, b)[..n] == Minus(a[..n], b[..n]);
    }
  }

  /**
   * A drag moving `amount` over shrinking columns with the given widths
   * and minimum widths, each above its minimum: no shrinking column ends
   * below its minimum, the shrinking columns lose together exactly what
   * the growing column gains, and that is the amount or all the room
   * there is, whichever is smaller.
   */
  lemma Transfer(widths: seq<real>, mins: seq<real>, amount: real)
    requires |widths| == |mins| && amount >= 0.0
    requires forall k :: 0 <= k < |widths| ==> widths[k] > mins[k]
    ensures var losses := Losses(Minus(widths, mins), amount);
            (forall k :: 0 <= k < |widths| ==> Minus(widths, losses)[k] >= mins[k]) &&
            Sum(widths) - Sum(Minus(widths, losses)) == Sum(losses) &&
            Sum(losses) == Min(amount, Sum(widths) - Sum(mins))
  {
    var rooms := Minus(widths, mins);
    var losses := Losses(rooms, amount);
    forall k | 0 <= k < |widths|
      ensures Minus(widths, losses)[k] >= mins[k]
    {
      LossesNearestFirst(rooms, amount, k);
    }
    LossesTotal(rooms, amount);
    SumMinus(widths, mins);
    SumMinus(widths, losses);
  }

  /**
   * The stored width of the growing column after it gained the first `n`
   * losses in turn: every step reads the `width` getter and stores it plus
   * the loss.
   */
  function Grown(stored: Option<real>, o: ColumnOptions, defaultWidth: Option<real>, losses: seq<real>, n: nat): Option<real>
    requires n <= |losses|
  {
    if n == 0 then stored
    else Some(Width(Grown(stored, o, defaultWidth, losses, n - 1), o, defaultWidth) + losses[n - 1])
  }

  /**
   * A growing column of positive width that gains losses that are not
   * negative ends with its width plus their sum.
   */
  lemma {:induction false} GrownSum(stored: Option<real>, o: ColumnOptions, defaultWidth: Option<real>, losses: seq<real>, n: nat)
    requires Width(stored, o, defaultWidth) > 0.0 && NonNegative(losses) && 0 < n <= |losses|
    ensures Grown(stored, o, defaultWidth, losses, n) == Some(Width(stored, o, defaultWidth) + Sum(losses[..n]))
  {
    assert losses[..n][..n - 1] == losses[..n - 1];
    if n > 1 {
      GrownSum(stored, o, defaultWidth, losses, n - 1);
      assert NonNegative(losses[..n - 1]);
      SumNonNegative(losses[..n - 1]);
    }
  }

  // ---------------------------------------------------------------------
  // Spreading a change over the columns

  /** The widths `distributeDelta` gives: each width plus the share, at least its minimum. */
  function Spread(widths: seq<real>, mins: seq<real>, share: real): (r: seq<real>)
    requires |widths| == |mins|
    ensures |r| == |widths|
  {
    seq(|widths|, k requires 0 <= k < |widths| => Max(widths[k] + share, mins[k]))
  }

  /**
   * A share that is not negative, over widths at their minimum or above,
   * adds exactly the share to each width; a negative share never takes a
   * width below its minimum nor above where it was.
   */
  lemma SpreadEach(widths: seq<real>, mins: seq<real>, share: real, k: nat)
    requires |widths| == |mins| && k < |widths|
    ensures Spread(widths, mins, share)[k] >= mins[k]
    ensures share >= 0.0 && widths[k] >= mins[k] ==> Spread(widths, mins, share)[k] == widths[k] + share
    ensures share < 0.0 && widths[k] >= mins[k] ==> Spread(widths, mins, share)[k] <= widths[k]
  {
  }

  /**
   * Spreading a share that is not negative over widths at their minimum or
   * above adds the share once per column to the summed width.
   */
  lemma {:induction false} SpreadSum(widths: seq<real>, mins: seq<real>, share: real)
    requires |widths| == |mins| && share >= 0.0
    requires forall k :: 0 <= k < |widths| ==> widths[k] >= mins[k]
    ensures Sum(Spread(widths, mins, share)) == Sum(widths) + |widths| as real * share
  {
    if widths != [] {
      var n := |widths| - 1;
      SpreadSum(widths[..n], mins[..n], share);
      assert Spread(widths, mins, share)[..n] == Spread(widths[..n], mins[..n], share);
    }
  }

  /**
   * `distributeDelta` of a growth over columns at their minimum or above
   * adds exactly the growth to their summed width.
   */
  lemma SpreadGrows(widths: seq<real>, mins: seq<real>, delta: real)
    requires |widths| == |mins| && |widths| > 0 && delta >= 0.0
    requires forall k :: 0 <= k < |widths| ==> widths[k] >= mins[k]
    ensures Sum(Spread(widths, mins, delta / |widths| as real)) == Sum(widths) + delta
  {
    SpreadSum(widths, mins, delta / |widths| as real);
  }
}
