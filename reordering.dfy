/**
 * The value-level side of the column-reordering plugin: column keys, the
 * `get` lookup (as written and corrected), and the facts `orderedColumns`
 * relies on.
 */
module Reordering {
  import opened Wrappers
  import opened Types
  import opened Strings
  import opened ColumnOrdering

  /** `columns.map((column) => column.key)` */
  function Keys(columns: seq<Column>): (r: seq<string>)
    ensures |r| == |columns|
    ensures forall i :: 0 <= i < |columns| ==> r[i] == ColumnKey(columns[i])
  {
    seq(|columns|, i requires 0 <= i < |columns| => ColumnKey(columns[i]))
  }

  /**
   * The `availableByKey` record built by `reduce`: every column under its
   * key, a later column with the same key replacing an earlier one.
   */
  function ByKey(columns: seq<Column>): (r: map<string, Column>)
    ensures forall k :: k in r <==> k in Keys(columns)
    ensures forall k <- r :: r[k] in columns && ColumnKey(r[k]) == k
  {
    if columns == [] then map[]
    else
      var init := columns[..|columns| - 1];
      var last := columns[|columns| - 1];
      assert forall c <- init :: c in columns;
      assert forall k :: k in Keys(columns) <==> k in Keys(init) || k == ColumnKey(last) by {
        assert forall i :: 0 <= i < |init| ==> Keys(columns)[i] == Keys(init)[i];
      }
      ByKey(init)[ColumnKey(last) := last]
  }

  // ---------------------------------------------------------------------
  // `ColumnOrder.get`

  function NoPositionMessage(key: string): string {
    "No position found for " + key + ". Is the column used within this table?"
  }

  /**
   * `get` as written: `assert(..., result)` tests the truthiness of the
   * position, so an absent key and the position 0 both fail.
   */
  function GetAsWritten(ordered: Order, key: string): (r: Result<int>)
    ensures r.Ok? <==> Has(ordered, key) && Lookup(ordered, key).value != 0
    ensures r.Ok? ==> Lookup(ordered, key) == Some(r.value)
    ensures r.Err? ==> r.msg == NoPositionMessage(key)
  {
    match Lookup(ordered, key)
    case Some(p) => if p != 0 then Ok(p) else Err(NoPositionMessage(key))
    case None => Err(NoPositionMessage(key))
  }

  /** `get` as evidently intended: fails only when the key has no position. */
  function GetResolved(ordered: Order, key: string): (r: Result<int>)
    ensures r.Ok? <==> Has(ordered, key)
    ensures r.Ok? ==> Lookup(ordered, key) == Some(r.value)
    ensures r.Err? ==> r.msg == NoPositionMessage(key)
  {
    match Lookup(ordered, key)
    case Some(p) => Ok(p)
    case None => Err(NoPositionMessage(key))
  }

  /**
   * In the canonical situation every column key resolves to the position
   * the full order gives it.
   */
  lemma ResolvedPosition(keys: seq<string>, m: Order, key: string)
    requires Canonical(keys, m) && key in keys
    ensures GetResolved(Expected(keys, m), key).Ok?
    ensures var p := GetResolved(Expected(keys, m), key).value;
            0 <= p < |keys| && Expected(keys, m)[p] == (key, p)
  {
    var e := Expected(keys, m);
    ExpectedBijection(keys, m);
    var i :| 0 <= i < |keys| && e[i].0 == key;
    LookupUnique(e, i);
  }

  /**
   * The as-written `get` rejects whichever column the full order puts
   * first, though the corrected one resolves it to 0.
   */
  lemma FirstColumnRejected(keys: seq<string>, m: Order)
    requires Canonical(keys, m) && keys != []
    ensures GetAsWritten(Expected(keys, m), Expected(keys, m)[0].0).Err?
    ensures GetResolved(Expected(keys, m), Expected(keys, m)[0].0) == Ok(0)
  {
    var e := Expected(keys, m);
    ExpectedBijection(keys, m);
    LookupUnique(e, 0);
  }

  // ---------------------------------------------------------------------
  // `orderedColumns` helpers

  /** The column the entries put at position `p`, if any. */
  ghost function SlotOf(entries: Order, byKey: map<string, Column>, p: int): Option<Column> {
    if entries == [] then None
    else
      var e := entries[|entries| - 1];
      if e.1 == p && e.0 in byKey then Some(byKey[e.0])
      else SlotOf(entries[..|entries| - 1], byKey, p)
  }

  /** A filled slot comes from an entry at that position. */
  lemma {:induction false} SlotEntry(entries: Order, byKey: map<string, Column>, p: int) returns (i: nat)
    requires SlotOf(entries, byKey, p).Some?
    ensures i < |entries| && entries[i].1 == p && entries[i].0 in byKey
    ensures SlotOf(entries, byKey, p).value == byKey[entries[i].0]
  {
    var e := entries[|entries| - 1];
    if e.1 == p && e.0 in byKey {
      i := |entries| - 1;
    } else {
      var init := entries[..|entries| - 1];
      i := SlotEntry(init, byKey, p);
      assert entries[i] == init[i];
    }
  }

  /** When entry `i` holds position `i`, position `p` gets entry `p`'s column. */
  lemma {:induction false} SlotOfIdentity(entries: Order, byKey: map<string, Column>, p: int)
    requires forall i :: 0 <= i < |entries| ==> entries[i].1 == i && entries[i].0 in byKey
    requires 0 <= p < |entries|
    ensures SlotOf(entries, byKey, p) == Some(byKey[entries[p].0])
  {
    if p < |entries| - 1 {
      SlotOfIdentity(entries[..|entries| - 1], byKey, p);
    }
  }

  /** `result.filter(Boolean).length`: the filled slots. */
  function Filled(slots: seq<Option<Column>>): (r: nat)
    ensures r <= |slots|
  {
    if slots == [] then 0
    else Filled(slots[..|slots| - 1]) + (if slots[|slots| - 1].Some? then 1 else 0)
  }

  /** Every slot is filled exactly when the count reaches the length. */
  lemma {:induction false} FilledAll(slots: seq<Option<Column>>)
    ensures Filled(slots) == |slots| <==> forall i :: 0 <= i < |slots| ==> slots[i].Some?
  {
    if slots != [] {
      var init := slots[..|slots| - 1];
      FilledAll(init);
      assert forall i :: 0 <= i < |init| ==> init[i] == slots[i];
    }
  }

  /**
   * A list of as many columns as `columns`, drawn from them and with
   * distinct keys, holds every column when their keys are distinct.
   */
  lemma CoversAll(r: seq<Column>, columns: seq<Column>)
    requires |r| == |columns| && forall c <- r :: c in columns
    requires Distinct(Keys(r)) && Distinct(Keys(columns))
    ensures forall c <- columns :: c in r
  {
    var rk := Keys(r);
    var ck := Keys(columns);
    DistinctCard(rk);
    DistinctCard(ck);
    var rs := set k | k in rk;
    var cs := set k | k in ck;
    assert rs <= cs by {
      forall k | k in rs ensures k in cs {
        var i :| 0 <= i < |rk| && rk[i] == k;
        assert r[i] in r;
        var j :| 0 <= j < |columns| && columns[j] == r[i];
        assert ck[j] == k;
      }
    }
    assert rs == cs by {
      assert rs * cs == rs && rs + cs == cs;
      assert |cs - rs| == 0;
    }
    forall c | c in columns ensures c in r {
      var j :| 0 <= j < |columns| && columns[j] == c;
      assert ck[j] in cs;
      var i :| 0 <= i < |rk| && rk[i] == ck[j];
      assert r[i] in r;
      var j' :| 0 <= j' < |columns| && columns[j'] == r[i];
      assert ck[j'] == ck[j];
      assert j' == j;
    }
  }

  /** Some key recorded at a position below the number of columns is not a column key. */
  ghost predicate StrayRecorded(m: Order, keys: seq<string>) {
    exists p :: 0 <= p < |keys| && PositionKey(m, p).Some? && PositionKey(m, p).value != "" &&
                PositionKey(m, p).value !in keys
  }

  function StrayMessage(key: string): string {
    "Could not find column for pair: " + key + " @ @{position}"
  }

  function LengthMessage(filled: nat, available: nat): string {
    "Generated orderedColumns' length (" + NatToString(filled) + ") " +
    "does not match the length of available columns (" + NatToString(available) + ")"
  }

  /** The slots hold, position by position, what the entries put there. */
  ghost predicate SlotsMatch(slots: seq<Option<Column>>, entries: Order, byKey: map<string, Column>) {
    forall p :: 0 <= p < |slots| ==> slots[p] == SlotOf(entries, byKey, p)
  }

  /** `result[position] = availableByKey[key]` keeps the slots matching one more entry. */
  lemma SlotsStep(slots: seq<Option<Column>>, entries: Order, byKey: map<string, Column>,
                  key: string, position: int)
    requires SlotsMatch(slots, entries, byKey) && key in byKey && 0 <= position < |slots|
    ensures SlotsMatch(slots[position := Some(byKey[key])], entries + [(key, position)], byKey)
  {
    assert (entries + [(key, position)])[..|entries|] == entries;
  }

  ghost predicate AllFilled(slots: seq<Option<Column>>) {
    forall i :: 0 <= i < |slots| ==> slots[i].Some?
  }

  /** The columns of slots that are all filled. */
  function Unwrap(slots: seq<Option<Column>>): (r: seq<Column>)
    requires AllFilled(slots)
    ensures |r| == |slots| && forall i :: 0 <= i < |slots| ==> slots[i] == Some(r[i])
  {
    seq(|slots|, i requires 0 <= i < |slots| && AllFilled(slots) => slots[i].value)
  }

  /**
   * After every merged entry has been placed: the slots are all filled in
   * the canonical situation, and filled slots hold distinct columns drawn
   * from the available ones (all of them when their keys are distinct), in
   * the full order in the canonical situation.
   */
  lemma Arranged(merged: Order, columns: seq<Column>, m: Order, slots: seq<Option<Column>>)
    requires DistinctKeys(merged) && forall e <- merged :: e.0 in ByKey(columns)
    requires |slots| == |columns| && SlotsMatch(slots, merged, ByKey(columns))
    requires Canonical(Keys(columns), m) ==> merged == Expected(Keys(columns), m)
    ensures Filled(slots) == |slots| <==> AllFilled(slots)
    ensures Canonical(Keys(columns), m) ==> AllFilled(slots)
    ensures AllFilled(slots) ==>
              (forall c <- Unwrap(slots) :: c in columns) && Distinct(Keys(Unwrap(slots))) &&
              (Distinct(Keys(columns)) ==> forall c <- columns :: c in Unwrap(slots)) &&
              (Canonical(Keys(columns), m) ==>
                 forall i :: 0 <= i < |columns| ==> ColumnKey(Unwrap(slots)[i]) == Expected(Keys(columns), m)[i].0)
  {
    var byKey := ByKey(columns);
    FilledAll(slots);
    if Canonical(Keys(columns), m) {
      CanonicalEntries(columns, m);
      forall p | 0 <= p < |slots| ensures slots[p] == Some(byKey[merged[p].0]) {
        SlotOfIdentity(merged, byKey, p);
      }
    }
    if AllFilled(slots) {
      PlacedColumns(merged, columns, Unwrap(slots));
    }
  }

  /** A stray recorded key is copied into the merged order. */
  lemma StrayEntry(m: Order, keys: seq<string>, merged: Order)
    requires StrayRecorded(m, keys) && KeepsRecorded(m, merged, |keys|)
    ensures exists e <- merged :: e.0 !in keys
  {
    var p :| 0 <= p < |keys| && PositionKey(m, p).Some? && PositionKey(m, p).value != "" &&
             PositionKey(m, p).value !in keys;
    assert (PositionKey(m, p).value, p) in merged;
  }

  /** In the canonical situation entry `i` of the full order is a column key at position `i`. */
  lemma CanonicalEntries(columns: seq<Column>, m: Order)
    requires Canonical(Keys(columns), m)
    ensures forall i :: 0 <= i < |columns| ==>
              Expected(Keys(columns), m)[i].1 == i && Expected(Keys(columns), m)[i].0 in ByKey(columns)
  {
    var keys := Keys(columns);
    forall i | 0 <= i < |columns| ensures Expected(keys, m)[i].0 in ByKey(columns) {
      ExpectedKeyListed(keys, m, i);
    }
  }

  /**
   * The columns the slots receive from a merged order whose keys are all
   * column keys: drawn from the columns, with distinct keys, and all of
   * them when the column keys are distinct.
   */
  lemma PlacedColumns(merged: Order, columns: seq<Column>, placed: seq<Column>)
    requires DistinctKeys(merged) && forall e <- merged :: e.0 in ByKey(columns)
    requires |placed| == |columns|
    requires forall i :: 0 <= i < |placed| ==> SlotOf(merged, ByKey(columns), i) == Some(placed[i])
    ensures forall c <- placed :: c in columns
    ensures Distinct(Keys(placed))
    ensures Distinct(Keys(columns)) ==> forall c <- columns :: c in placed
  {
    var byKey := ByKey(columns);
    forall c | c in placed ensures c in columns {
      var i :| 0 <= i < |placed| && placed[i] == c;
      var j := SlotEntry(merged, byKey, i);
    }
    forall i, i' | 0 <= i < i' < |placed| ensures Keys(placed)[i] != Keys(placed)[i'] {
      var j := SlotEntry(merged, byKey, i);
      var j' := SlotEntry(merged, byKey, i');
      assert j != j';
    }
    if Distinct(Keys(columns)) {
      CoversAll(placed, columns);
    }
  }
}
