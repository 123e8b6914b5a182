/**
 * `deserializeSorts` and `serializeSorts`: a sort list written as a query
 * string, `property<separator>asc|desc` per sort, joined by `+`. Ember's
 * `camelize` and `underscore` are given as an `Inflector`.
 */
module SortCodec {
  import opened Wrappers
  import opened Strings
  import opened Sorting

  /** `SortsOptions`: the separator and the transform's name (`None` for `null`). */
  datatype SortsOptions = SortsOptions(separator: string, transform: Option<string>)

  /** The default options of `deserializeSorts`. */
  const DeserializeDefaults := SortsOptions(".", Some("camelize"))

  /** The default options of `serializeSorts`. */
  const SerializeDefaults := SortsOptions(".", Some("underscore"))

  /** Ember's string inflections. */
  datatype Inflector = Inflector(camelize: string -> string, underscore: string -> string)

  /** The property under the transform: camelized, underscored, or as it is for any other name. */
  function Transformed(property: string, transform: Option<string>, inflector: Inflector): string {
    if transform == Some("camelize") then inflector.camelize(property)
    else if transform == Some("underscore") then inflector.underscore(property)
    else property
  }

  function NoKeyMessage(sortString: string, separator: string): string {
    "No key found for input: `" + sortString + "` using `" + separator + "` as a separator"
  }

  /**
   * `deserializeSorts(sortString, options)`: nothing for the empty string;
   * otherwise one sort, whose property is the piece before the first
   * separator and whose direction is ascending exactly when the next piece
   * is `asc`. An empty first piece fails the `assert`.
   */
  function DeserializeSorts(sortString: string, options: SortsOptions, inflector: Inflector): (r: Result<seq<Sort>>)
    ensures sortString == "" ==> r == Ok([])
    ensures r.Ok? ==> |r.value| <= 1 && (sortString != "" ==> |r.value| == 1)
    ensures r.Ok? ==> forall s <- r.value :: s.direction != Unsorted
    ensures |options.separator| > 0 ==> (r.Err? <==> OccursAt(sortString, options.separator, 0))
    ensures |options.separator| == 0 ==> r.Ok?
    ensures var parts := Split(sortString, options.separator);
            r.Ok? && sortString != "" ==>
              |parts| > 0 && r.value[0].property == Transformed(parts[0], options.transform, inflector) &&
              (r.value[0].direction == Ascending <==> |parts| > 1 && parts[1] == "asc")
  {
    if sortString == "" then Ok([])
    else
      var parts := Split(sortString, options.separator);
      var key := if |parts| > 0 then parts[0] else "";
      if key == "" then Err(NoKeyMessage(sortString, options.separator))
      else
        var direction := if |parts| > 1 then Some(parts[1]) else None;
        Ok([Sort(Transformed(key, options.transform, inflector),
                 if direction == Some("asc") then Ascending else Descending)])
  }

  /** `asc` for an ascending sort, `desc` for any other. */
  function Shorthand(d: SortDirection): string {
    if d == Ascending then "asc" else "desc"
  }

  /** One sort as written: the transformed property, the separator, the direction. */
  function SortParameter(sort: Sort, options: SortsOptions, inflector: Inflector): string {
    Transformed(sort.property, options.transform, inflector) + options.separator + Shorthand(sort.direction)
  }

  /** `serializeSorts(sorts, options)`: the sorts as written, joined by `+`. */
  function SerializeSorts(sorts: seq<Sort>, options: SortsOptions, inflector: Inflector): (r: string)
    ensures sorts == [] ==> r == ""
    ensures |sorts| == 1 ==> r == SortParameter(sorts[0], options, inflector)
  {
    Join(seq(|sorts|, i requires 0 <= i < |sorts| => SortParameter(sorts[i], options, inflector)), "+")
  }

  /**
   * When no written sort contains `+`, splitting the serialized string on
   * `+` gives back each sort as written, in order.
   */
  lemma SerializedPieces(sorts: seq<Sort>, options: SortsOptions, inflector: Inflector)
    requires |sorts| >= 1
    requires forall s <- sorts :: '+' !in SortParameter(s, options, inflector)
    ensures |Split(SerializeSorts(sorts, options, inflector), "+")| == |sorts|
    ensures forall i :: 0 <= i < |sorts| ==>
              Split(SerializeSorts(sorts, options, inflector), "+")[i] == SortParameter(sorts[i], options, inflector)
  {
    var params := seq(|sorts|, i requires 0 <= i < |sorts| => SortParameter(sorts[i], options, inflector));
    forall x <- params
      ensures "+"[0] !in x
    {
      var i :| 0 <= i < |params| && params[i] == x;
      assert sorts[i] in sorts;
    }
    JoinSplit(params, "+");
  }

  /**
   * The separator does not occur in `field` followed by the separator,
   * other than where that separator starts.
   */
  predicate SeparatedCleanly(field: string, separator: string) {
    forall k :: 0 <= k < |field| ==> !OccursAt(field + separator, separator, k)
  }

  /**
   * Reading back a serialized sort gives one sort: its property transformed
   * on the way out and on the way back, and its direction, except that a
   * sort without a direction comes back descending. It holds when the
   * written property is not empty and does not run into the separator, and
   * the separator does not occur in `asc`.
   */
  lemma {:induction false} ReadBack(sort: Sort, out: SortsOptions, back: SortsOptions, inflector: Inflector)
    requires back.separator == out.separator && |out.separator| > 0
    requires Transformed(sort.property, out.transform, inflector) != ""
    requires SeparatedCleanly(Transformed(sort.property, out.transform, inflector), out.separator)
    requires forall k :: 0 <= k < 3 ==> !OccursAt("asc", out.separator, k)
    ensures DeserializeSorts(SerializeSorts([sort], out, inflector), back, inflector) ==
            Ok([Sort(Transformed(Transformed(sort.property, out.transform, inflector), back.transform, inflector),
                     if sort.direction == Ascending then Ascending else Descending)])
  {
    var field := Transformed(sort.property, out.transform, inflector);
    var sep := out.separator;
    var word := Shorthand(sort.direction);
    var written := SerializeSorts([sort], out, inflector);
    assert written == field + sep + word;
    SplitAt(field, sep, word);
    var rest := Split(word, sep);
    assert Split(written, sep) == [field] + rest;
    var next := rest[0];
    if sort.direction == Ascending {
      assert forall j :: 0 <= j <= 3 ==> !OccursAt("asc", sep, j);
      assert IndexFrom("asc", sep, 0).None?;
      assert next == "asc";
    } else {
      FirstPieceIsPrefix(word, sep);
      assert next != "asc";
    }
  }

  /** The first piece of a split is a prefix of the string. */
  lemma FirstPieceIsPrefix(s: string, sep: string)
    requires |sep| > 0
    ensures |Split(s, sep)[0]| <= |s| && Split(s, sep)[0] == s[..|Split(s, sep)[0]|]
  {
  }

  /**
   * With no transform, a single ascending or descending sort whose property
   * is not empty and does not run into the separator survives the round trip.
   */
  lemma RoundTrip(sort: Sort, separator: string, inflector: Inflector)
    requires |separator| > 0 && sort.property != "" && sort.direction != Unsorted
    requires SeparatedCleanly(sort.property, separator)
    requires forall k :: 0 <= k < 3 ==> !OccursAt("asc", separator, k)
    ensures var options := SortsOptions(separator, None);
            DeserializeSorts(SerializeSorts([sort], options, inflector), options, inflector) == Ok([sort])
  {
    var options := SortsOptions(separator, None);
    ReadBack(sort, options, options, inflector);
  }
}
