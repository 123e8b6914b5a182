/**
 * The sticky-columns plugin: a column's `sticky` option, its offset from
 * the table's left or right edge (the widths of the columns before or
 * after it, as the width-managing plugin reports them) and its style. The
 * columns are the table's resolved columns (`columns.for(table)`); the width
 * each one reports is given as a function.
 */
module Sticky {
  import opened Wrappers
  import opened Values
  import opened Types
  import Base
  import PluginConfig

  /** The identity of the `StickyColumns` class; any value other than the other plugins' serves. */
  const StickyClass: ClassId := 3

  /** `StickyColumns`: it requires a plugin providing `columnWidth`. */
  const StickyColumns := PluginClass(
    StickyClass, "StickyColumns", None, Some(["columnWidth"]),
    PluginShape("sticky-columns", None, None, Some(MetaCtors(true, true, false)), None))

  const DefaultZIndex := "8"

  /**
   * A value as a template literal writes it, for the values whose text does
   * not depend on number formatting or on a function's source.
   */
  function TemplateText(v: Value): string {
    match v
    case Undef => "undefined"
    case Null => "null"
    case Bool(b) => if b then "true" else "false"
    case Num(_) => "<number>"
    case Str(s) => s
    case Func(_) => "<function>"
    case Obj(_) => "[object Object]"
  }

  function InvalidStickyMessage(sticky: Value): string {
    "Invalid sticky value, " + TemplateText(sticky) + ". Valid values: 'left', 'right', false"
  }

  /** `position`: which edge the column sticks to, `NotSticky` for `'none'`. */
  datatype Side = Left | Right | NotSticky

  /** `options.forColumn(column, StickyColumns)?.sticky` */
  function StickyOption(column: Column): Value {
    Get(Base.OptionsForColumn(column, StickyClass), "sticky")
  }

  /**
   * `position`: `'left'` and `'right'` as given, `false` and an absent
   * option as `'none'`; any other value fails the `assert`.
   */
  function Position(sticky: Value): (r: Result<Side>)
    ensures r.Err? <==> !(sticky == Str("left") || sticky == Str("right") || sticky == Bool(false) || sticky.Undef?)
    ensures r == Ok(Left) <==> sticky == Str("left")
    ensures r == Ok(Right) <==> sticky == Str("right")
    ensures r == Ok(NotSticky) <==> sticky == Bool(false) || sticky.Undef?
    ensures r.Err? ==> r.msg == InvalidStickyMessage(sticky)
  {
    if sticky == Str("left") then Ok(Left)
    else if sticky == Str("right") then Ok(Right)
    else if sticky == Bool(false) || sticky.Undef? then Ok(NotSticky)
    else Err(InvalidStickyMessage(sticky))
  }

  /** `isSticky`: the position is not `'none'`. */
  function IsSticky(sticky: Value): (r: Result<bool>)
    ensures r.Err? <==> Position(sticky).Err?
    ensures r.Ok? ==> (r.value <==> Position(sticky).value != NotSticky)
  {
    match Position(sticky)
    case Err(msg) => Err(msg)
    case Ok(side) => Ok(side != NotSticky)
  }

  /** `columnMeta.width ?? 0`, and 0 for a meta without a `width` field. */
  function WidthOrZero(w: Option<real>): real {
    if w.Some? then w.value else 0.0
  }

  /** The `reduce` over a list of columns: the sum of the widths they report. */
  function WidthSum(cols: seq<Column>, width: Column -> Option<real>): real {
    if cols == [] then 0.0 else WidthSum(cols[..|cols| - 1], width) + WidthOrZero(width(cols[|cols| - 1]))
  }

  /** Summing the widths of two lists one after the other is summing over their concatenation. */
  lemma {:induction false} WidthSumAppend(a: seq<Column>, b: seq<Column>, width: Column -> Option<real>)
    ensures WidthSum(a + b, width) == WidthSum(a, width) + WidthSum(b, width)
    decreases |b|
  {
    if b != [] {
      var n := |b| - 1;
      WidthSumAppend(a, b[..n], width);
      assert (a + b)[..|a + b| - 1] == a + b[..n];
      assert (a + b)[|a + b| - 1] == b[n];
    } else {
      assert a + b == a;
    }
  }

  /**
   * `offset`: absent for a column that is not sticky; otherwise the summed
   * widths of the columns before it (sticking left) or after it (sticking
   * right), which the source renders with `px`.
   */
  function Offset(cols: seq<Column>, column: Column, width: Column -> Option<real>): (r: Result<Option<real>>)
    ensures r.Err? <==> Position(StickyOption(column)).Err?
    ensures r.Ok? ==> (r.value.Some? <==> IsSticky(StickyOption(column)) == Ok(true))
    ensures Position(StickyOption(column)) == Ok(Left) ==>
              r == Ok(Some(WidthSum(Base.Before(cols, column), width)))
    ensures Position(StickyOption(column)) == Ok(Right) ==>
              r == Ok(Some(WidthSum(Base.After(cols, column), width)))
  {
    match Position(StickyOption(column))
    case Err(msg) => Err(msg)
    case Ok(Left) => Ok(Some(WidthSum(Base.Before(cols, column), width)))
    case Ok(Right) => Ok(Some(WidthSum(Base.After(cols, column), width)))
    case Ok(NotSticky) => Ok(None)
  }

  /**
   * For a column of the list, its left offset, its own width and its right
   * offset add up to the width of the whole list; so a left-sticky column's
   * offset is the whole width less its own and those after it, and a
   * right-sticky column's the whole width less its own and those before it.
   */
  lemma OffsetsPartition(cols: seq<Column>, column: Column, width: Column -> Option<real>)
    requires column in cols
    ensures WidthSum(Base.Before(cols, column), width) + WidthOrZero(width(column)) +
            WidthSum(Base.After(cols, column), width) == WidthSum(cols, width)
    ensures Position(StickyOption(column)) == Ok(Left) ==>
              Offset(cols, column, width) ==
              Ok(Some(WidthSum(cols, width) - WidthOrZero(width(column)) - WidthSum(Base.After(cols, column), width)))
    ensures Position(StickyOption(column)) == Ok(Right) ==>
              Offset(cols, column, width) ==
              Ok(Some(WidthSum(cols, width) - WidthOrZero(width(column)) - WidthSum(Base.Before(cols, column), width)))
  {
    Base.NeighboursPartition(cols, column);
    var before, after := Base.Before(cols, column), Base.After(cols, column);
    WidthSumAppend(before, [column], width);
    WidthSumAppend(before + [column], after, width);
    assert WidthSum([column], width) == WidthOrZero(width(column)) by {
      assert [column][..0] == [];
    }
  }

  /**
   * In a list without repeats, the left offset of a column is that of the
   * column before it plus that column's width: left-sticky columns sit
   * edge to edge.
   */
  lemma LeftOffsetsStack(cols: seq<Column>, i: nat, width: Column -> Option<real>)
    requires forall a, b :: 0 <= a < b < |cols| ==> cols[a] != cols[b]
    requires i + 1 < |cols|
    ensures WidthSum(Base.Before(cols, cols[i + 1]), width) ==
            WidthSum(Base.Before(cols, cols[i]), width) + WidthOrZero(width(cols[i]))
    ensures Position(StickyOption(cols[i])) == Ok(Left) && Position(StickyOption(cols[i + 1])) == Ok(Left) ==>
              Offset(cols, cols[i + 1], width).value.value ==
              Offset(cols, cols[i], width).value.value + WidthOrZero(width(cols[i]))
  {
    IndexOfDistinct(cols, i);
    IndexOfDistinct(cols, i + 1);
    Base.BeforeAfterSlices(cols, cols[i]);
    Base.BeforeAfterSlices(cols, cols[i + 1]);
    assert cols[..i + 1] == cols[..i] + [cols[i]];
    WidthSumAppend(cols[..i], [cols[i]], width);
    assert [cols[i]][..0] == [];
  }

  /**
   * In a list without repeats, the right offset of a column is that of the
   * column after it plus that column's width: right-sticky columns sit
   * edge to edge.
   */
  lemma RightOffsetsStack(cols: seq<Column>, i: nat, width: Column -> Option<real>)
    requires forall a, b :: 0 <= a < b < |cols| ==> cols[a] != cols[b]
    requires i + 1 < |cols|
    ensures WidthSum(Base.After(cols, cols[i]), width) ==
            WidthSum(Base.After(cols, cols[i + 1]), width) + WidthOrZero(width(cols[i + 1]))
    ensures Position(StickyOption(cols[i])) == Ok(Right) && Position(StickyOption(cols[i + 1])) == Ok(Right) ==>
              Offset(cols, cols[i], width).value.value ==
              Offset(cols, cols[i + 1], width).value.value + WidthOrZero(width(cols[i + 1]))
  {
    IndexOfDistinct(cols, i);
    IndexOfDistinct(cols, i + 1);
    assert cols[i] in cols && cols[i + 1] in cols;
    assert Base.After(cols, cols[i]) == cols[i + 1..];
    assert Base.After(cols, cols[i + 1]) == cols[i + 2..];
    assert cols[i + 1..] == [cols[i + 1]] + cols[i + 2..];
    WidthSumAppend([cols[i + 1]], cols[i + 2..], width);
    assert [cols[i + 1]][..0] == [];
  }

  /** In a list without repeats, `indexOf` finds each element at its own position. */
  lemma IndexOfDistinct(cols: seq<Column>, i: nat)
    requires forall a, b :: 0 <= a < b < |cols| ==> cols[a] != cols[b]
    requires i < |cols|
    ensures Base.IndexOf(cols, cols[i]) == i
  {
    var k := Base.IndexOf(cols, cols[i]);
    assert cols[i] in cols;
    forall j | 0 <= j < k
      ensures cols[..k][j] == cols[j]
    {
    }
  }

  /** A value of the style object. */
  datatype StyleValue = Text(s: string) | Px(n: real)

  /**
   * `style`: nothing for a column that is not sticky; otherwise `position:
   * sticky`, the offset under the side it sticks to, and the z-index.
   */
  function Style(cols: seq<Column>, column: Column, width: Column -> Option<real>): (r: Result<seq<(string, StyleValue)>>)
    ensures r.Err? <==> Position(StickyOption(column)).Err?
    ensures r.Ok? ==> (r.value == [] <==> Position(StickyOption(column)) == Ok(NotSticky))
    ensures r.Ok? && r.value != [] ==>
              |r.value| == 3 && r.value[0] == ("position", Text("sticky")) &&
              r.value[2] == ("zIndex", Text(DefaultZIndex)) &&
              r.value[1].0 == (if Position(StickyOption(column)) == Ok(Left) then "left" else "right") &&
              r.value[1].1.Px? && Offset(cols, column, width) == Ok(Some(r.value[1].1.n))
  {
    match Offset(cols, column, width)
    case Err(msg) => Err(msg)
    case Ok(None) => Ok([])
    case Ok(Some(offset)) =>
      var side := if Position(StickyOption(column)) == Ok(Left) then "left" else "right";
      Ok([("position", Text("sticky")), (side, Px(offset)), ("zIndex", Text(DefaultZIndex))])
  }

  /**
   * The plugin requires `columnWidth`: a configuration listing it where no
   * plugin provides that feature fails verification.
   */
  lemma NeedsColumnWidth(heads: seq<PluginConfig.Slot>, i: nat)
    requires i < |heads| && heads[i] == PluginConfig.PluginSlot(ClassRef(StickyColumns))
    requires forall h <- heads :: "columnWidth" !in PluginConfig.Tags(h, PluginConfig.Features)
    ensures PluginConfig.Verified(heads).Fail?
  {
    PluginConfig.VerifiedIff(heads);
    PluginConfig.ProvidersNonEmpty(heads, PluginConfig.Requirements, "columnWidth");
    PluginConfig.ProvidersNonEmpty(heads, PluginConfig.Features, "columnWidth");
    assert "columnWidth" in PluginConfig.Tags(heads[i], PluginConfig.Requirements);
    forall j | 0 <= j < |heads|
      ensures "columnWidth" !in PluginConfig.Tags(heads[j], PluginConfig.Features)
    {
      assert heads[j] in heads;
    }
  }
}
