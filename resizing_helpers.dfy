/**
 * The column-resizing helpers: the inline style string a cell of a column
 * gets from the column's resizing meta. `${value}` rendering of a number is
 * given as a function.
 */
module ResizingHelpers {
  import opened Wrappers
  import opened Strings
  import Resizing

  /** `toStyle`: the CSS spelling of a style key the plugin sets. */
  function ToStyle(key: string): (r: string)
    ensures key == "minWidth" ==> r == "min-width"
    ensures key != "minWidth" ==> r == key
  {
    if key == "minWidth" then "min-width" else key
  }

  /** One entry of a style as a CSS declaration, without its `;`. */
  function Declaration(entry: (string, real), render: real -> string): string {
    ToStyle(entry.0) + ":" + render(entry.1)
  }

  /** The declarations of a style, each followed by `;`, in entry order. */
  function Declarations(style: seq<(string, real)>, render: real -> string): string {
    if style == [] then ""
    else Declarations(style[..|style| - 1], render) + Declaration(style[|style| - 1], render) + ";"
  }

  /**
   * `styleStringFor(column)`: `;` followed by the declarations of the
   * column's resizing style.
   */
  method StyleStringFor(meta: Resizing.ColumnMeta, defaultWidth: Option<real>, render: real -> string)
    returns (result: string)
    ensures result == ";" + Declarations(meta.Style(defaultWidth), render)
  {
    var style := meta.Style(defaultWidth);
    result := "";
    for i := 0 to |style|
      invariant result == Declarations(style[..i], render)
    {
      PrefixStep(style, i);
      result := result + ToStyle(style[i].0) + ":" + render(style[i].1) + ";";
    }
    assert style[..|style|] == style;
    result := ";" + result;
  }

  /** The declarations of a style, one per entry. */
  function DeclarationList(style: seq<(string, real)>, render: real -> string): seq<string> {
    if style == [] then []
    else DeclarationList(style[..|style| - 1], render) + [Declaration(style[|style| - 1], render)]
  }

  /** Each item of the list is the declaration of an entry of the style. */
  lemma {:induction false} DeclarationListItems(style: seq<(string, real)>, render: real -> string, x: string)
    requires x in DeclarationList(style, render)
    ensures exists e <- style :: x == Declaration(e, render)
  {
    var n := |style| - 1;
    if x in DeclarationList(style[..n], render) {
      DeclarationListItems(style[..n], render, x);
      var e :| e in style[..n] && x == Declaration(e, render);
      assert e in style;
    } else {
      assert style[n] in style;
    }
  }

  /** The style string is the declarations between semicolons, with an empty piece at each end. */
  lemma {:induction false} StyleStringJoin(style: seq<(string, real)>, render: real -> string)
    ensures ";" + Declarations(style, render) + "" ==
            Join([""] + DeclarationList(style, render) + [""], ";")
  {
    DeclarationsJoin(style, render);
    JoinSnoc([""] + DeclarationList(style, render), "", ";");
  }

  lemma {:induction false} DeclarationsJoin(style: seq<(string, real)>, render: real -> string)
    ensures ";" + Declarations(style, render) == Join([""] + DeclarationList(style, render), ";") + ";"
  {
    if style != [] {
      var n := |style| - 1;
      var prior := Declarations(style[..n], render);
      var d := Declaration(style[n], render);
      var front := [""] + DeclarationList(style[..n], render);
      DeclarationsJoin(style[..n], render);
      JoinSnoc(front, d, ";");
      assert [""] + DeclarationList(style, render) == front + [d];
      var j := Join(front, ";");
      assert ";" + prior == j + ";";
      AppendTwo(";", prior, j + ";", d + ";");
      assert ";" + (prior + d + ";") == (j + ";" + d) + ";" by {
        assert prior + d + ";" == prior + (d + ";");
        assert j + ";" + d + ";" == (j + ";") + (d + ";");
      }
    }
  }

  /** Equal fronts followed by the same tail. */
  lemma AppendTwo(a: string, b: string, ab: string, c: string)
    requires a + b == ab
    ensures a + (b + c) == ab + c
  {
  }

  /**
   * When no key and no rendered value contains `;`, splitting the style
   * string on `;` gives an empty piece, each entry's declaration in order,
   * and an empty piece: one declaration per style entry.
   */
  lemma StyleStringPieces(style: seq<(string, real)>, render: real -> string)
    requires forall e <- style :: ';' !in e.0 && ';' !in render(e.1)
    ensures Split(";" + Declarations(style, render), ";") == [""] + DeclarationList(style, render) + [""]
  {
    var pieces := [""] + DeclarationList(style, render) + [""];
    forall x <- pieces
      ensures ";"[0] !in x
    {
      if x in DeclarationList(style, render) {
        DeclarationListItems(style, render, x);
        var e :| e in style && x == Declaration(e, render);
        assert x == ToStyle(e.0) + ":" + render(e.1);
      }
    }
    StyleStringJoin(style, render);
    assert ";" + Declarations(style, render) + "" == ";" + Declarations(style, render);
    JoinSplit(pieces, ";");
  }
}
