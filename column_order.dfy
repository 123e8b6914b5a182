/**
 * `orderOf`: merging the positions a user recorded for some column keys
 * with the table's own column order.
 */
module ColumnOrdering {
  import opened Wrappers

  /** A JavaScript `Map<string, number>`: its entries in insertion order. */
  type Order = seq<(string, int)>

  ghost predicate DistinctKeys(m: Order) {
    forall i, j :: 0 <= i < j < |m| ==> m[i].0 != m[j].0
  }

  ghost predicate Distinct<T>(s: seq<T>) {
    forall i, j :: 0 <= i < j < |s| ==> s[i] != s[j]
  }

  /** `map.get(key)` */
  function Lookup(m: Order, key: string): (r: Option<int>)
    ensures r.None? <==> forall i :: 0 <= i < |m| ==> m[i].0 != key
    ensures r.Some? ==> exists i :: 0 <= i < |m| && m[i] == (key, r.value)
  {
    if m == [] then None
    else if m[0].0 == key then Some(m[0].1)
    else
      var r := Lookup(m[1..], key);
      assert forall i :: 1 <= i < |m| ==> m[i] == m[1..][i - 1];
      r
  }

  /** `map.has(key)` */
  predicate Has(m: Order, key: string) {
    Lookup(m, key).Some?
  }

  /** With distinct keys, `get` finds the one entry holding the key. */
  lemma LookupUnique(m: Order, i: int)
    requires DistinctKeys(m) && 0 <= i < |m|
    ensures Lookup(m, m[i].0) == Some(m[i].1)
  {
  }

  /** `map.set(key, value)`: overwrites the value in place, or appends the entry. */
  function MapSet(m: Order, key: string, value: int): Order {
    if m == [] then [(key, value)]
    else if m[0].0 == key then [(key, value)] + m[1..]
    else [m[0]] + MapSet(m[1..], key, value)
  }

  /**
   * `set` changes only the entry for its key: every other key keeps its
   * value, a new key is appended, and an existing key keeps its place.
   */
  lemma MapSetFrame(m: Order, key: string, value: int)
    ensures Lookup(MapSet(m, key, value), key) == Some(value)
    ensures forall k :: k != key ==> Lookup(MapSet(m, key, value), k) == Lookup(m, k)
    ensures !Has(m, key) ==> MapSet(m, key, value) == m + [(key, value)]
    ensures Has(m, key) ==> |MapSet(m, key, value)| == |m|
    ensures Has(m, key) ==> forall i :: 0 <= i < |m| ==> MapSet(m, key, value)[i].0 == m[i].0
  {
    MapSetLookup(m, key, value);
    MapSetShape(m, key, value);
  }

  lemma {:induction false} MapSetLookup(m: Order, key: string, value: int)
    ensures Lookup(MapSet(m, key, value), key) == Some(value)
    ensures forall k :: k != key ==> Lookup(MapSet(m, key, value), k) == Lookup(m, k)
  {
    var r := MapSet(m, key, value);
    if m != [] && m[0].0 == key {
      assert r[1..] == m[1..];
    } else if m != [] {
      MapSetLookup(m[1..], key, value);
      assert r[1..] == MapSet(m[1..], key, value);
    }
  }

  lemma {:induction false} MapSetShape(m: Order, key: string, value: int)
    ensures !Has(m, key) ==> MapSet(m, key, value) == m + [(key, value)]
    ensures Has(m, key) ==> |MapSet(m, key, value)| == |m|
    ensures Has(m, key) ==> forall i :: 0 <= i < |m| ==> MapSet(m, key, value)[i].0 == m[i].0
  {
    var r := MapSet(m, key, value);
    if m != [] && m[0].0 != key {
      MapSetShape(m[1..], key, value);
      assert Has(m, key) == Has(m[1..], key);
      assert forall i :: 1 <= i < |m| ==> m[i] == m[1..][i - 1];
      assert forall i :: 1 <= i < |r| ==> r[i] == MapSet(m[1..], key, value)[i - 1];
      assert !Has(m, key) ==> m + [(key, value)] == [m[0]] + (m[1..] + [(key, value)]);
    }
  }

  /** Setting a key keeps the keys of a map distinct. */
  lemma MapSetDistinct(m: Order, key: string, value: int)
    requires DistinctKeys(m)
    ensures DistinctKeys(MapSet(m, key, value))
  {
    var r := MapSet(m, key, value);
    MapSetFrame(m, key, value);
    if !Has(m, key) {
      assert forall i :: 0 <= i < |m| ==> r[i] == m[i] && m[i].0 != key;
    }
  }

  /**
   * `current.get(p)`, where `current` is `currentOrder` turned around into
   * a map from position to key; of two keys recorded at the same position,
   * the later one wins.
   */
  function PositionKey(m: Order, p: int): Option<string> {
    if m == [] then None
    else if m[|m| - 1].1 == p then Some(m[|m| - 1].0)
    else PositionKey(m[..|m| - 1], p)
  }

  /** A key is found at a position exactly when some entry records that position. */
  lemma {:induction false} PositionKeyFound(m: Order, p: int)
    ensures PositionKey(m, p).None? <==> forall i :: 0 <= i < |m| ==> m[i].1 != p
    ensures PositionKey(m, p).Some? ==> exists i :: 0 <= i < |m| && m[i] == (PositionKey(m, p).value, p)
  {
    if m != [] && m[|m| - 1].1 != p {
      PositionKeyFound(m[..|m| - 1], p);
    }
  }

  /** With distinct keys, a key found at a position is recorded at that position. */
  lemma PositionKeyLookup(m: Order, p: int)
    requires DistinctKeys(m) && PositionKey(m, p).Some?
    ensures Lookup(m, PositionKey(m, p).value) == Some(p)
  {
    PositionKeyFound(m, p);
    var i :| 0 <= i < |m| && m[i] == (PositionKey(m, p).value, p);
    LookupUnique(m, i);
  }

  /**
   * The situation in which `orderOf` is meant to be used: distinct,
   * non-empty column keys; every recorded key is one of them, and the
   * recorded positions are distinct and lie in `0 .. n-1`.
   */
  ghost predicate Canonical(keys: seq<string>, m: Order) {
    DistinctKeys(m) && Distinct(keys) &&
    (forall k <- keys :: k != "") &&
    (forall e <- m :: e.0 in keys && 0 <= e.1 < |keys|) &&
    (forall i, j :: 0 <= i < j < |m| ==> m[i].1 != m[j].1)
  }

  /** The keys of a map. */
  ghost function KeySet(m: Order): set<string> {
    set e | e in m :: e.0
  }

  /** The positions a map records. */
  ghost function PositionSet(m: Order): set<int> {
    set e | e in m :: e.1
  }

  lemma HasIff(m: Order, k: string)
    ensures Has(m, k) <==> k in KeySet(m)
  {
    if Has(m, k) {
      var i :| 0 <= i < |m| && m[i] == (k, Lookup(m, k).value);
      assert m[i] in m;
    }
  }

  lemma PositionKeyIff(m: Order, p: int)
    ensures PositionKey(m, p).Some? <==> p in PositionSet(m)
  {
    PositionKeyFound(m, p);
    if PositionKey(m, p).Some? {
      var i :| 0 <= i < |m| && m[i] == (PositionKey(m, p).value, p);
      assert m[i] in m;
    }
  }

  /** The keys not in `recorded`, in their order. */
  ghost function Unrecorded(keys: seq<string>, recorded: set<string>): seq<string> {
    if keys == [] then []
    else
      Unrecorded(keys[..|keys| - 1], recorded) +
      (if keys[|keys| - 1] in recorded then [] else [keys[|keys| - 1]])
  }

  /** How many of the positions `0 .. i-1` are not in `taken`. */
  ghost function FreeBefore(taken: set<int>, i: nat): nat {
    if i == 0 then 0
    else FreeBefore(taken, i - 1) + (if i - 1 in taken then 0 else 1)
  }

  // ---------------------------------------------------------------------
  // The loop

  /**
   * `orderOf(columns, currentOrder)`: for each position in turn, the key
   * recorded there, if any and non-empty; otherwise the next column key
   * that is neither placed yet nor recorded, where running out of keys or
   * meeting an empty key leaves the position unfilled.
   *
   * In general the result keeps its keys distinct and its positions
   * strictly increasing and below the number of columns, puts recorded
   * keys only at their recorded position, and keeps every recorded key
   * whose position is below the number of columns. In the canonical
   * situation it is exactly `Expected`.
   */
  method OrderOf(keys: seq<string>, currentOrder: Order) returns (result: Order)
    requires DistinctKeys(currentOrder)
    ensures DistinctKeys(result)
    ensures forall j :: 0 <= j < |result| ==> 0 <= result[j].1 < |keys|
    ensures forall j, k :: 0 <= j < k < |result| ==> result[j].1 < result[k].1
    ensures forall e <- result :: Has(currentOrder, e.0) ==> Lookup(currentOrder, e.0) == Some(e.1)
    ensures forall e <- result :: !Has(currentOrder, e.0) ==> e.0 in keys
    ensures KeepsRecorded(currentOrder, result, |keys|)
    ensures Canonical(keys, currentOrder) ==> result == Expected(keys, currentOrder)
  {
    result := [];
    var available := keys;
    ghost var consumed := 0;
    for i := 0 to |keys|
      invariant 0 <= consumed <= |keys| && available == keys[consumed..]
      invariant Sound(keys, currentOrder, result, i)
      invariant Canonical(keys, currentOrder) ==> CanonicalAt(keys, currentOrder, i, consumed, result)
    {
      result, available, consumed := FillPosition(keys, currentOrder, i, result, available, consumed);
    }
  }

  /** One turn of the `orderOf` loop: position `i` is filled, or left unfilled. */
  method FillPosition(keys: seq<string>, currentOrder: Order, i: nat, result: Order,
                      available: seq<string>, ghost consumed: nat)
    returns (result': Order, available': seq<string>, ghost consumed': nat)
    requires DistinctKeys(currentOrder) && i < |keys|
    requires consumed <= |keys| && available == keys[consumed..]
    requires Sound(keys, currentOrder, result, i)
    requires Canonical(keys, currentOrder) ==> CanonicalAt(keys, currentOrder, i, consumed, result)
    ensures consumed' <= |keys| && available' == keys[consumed'..]
    ensures Sound(keys, currentOrder, result', i + 1)
    ensures Canonical(keys, currentOrder) ==> CanonicalAt(keys, currentOrder, i + 1, consumed', result')
  {
    var orderedKey := PositionKey(currentOrder, i);
    if Canonical(keys, currentOrder) {
      CanonicalPositionKey(keys, currentOrder, i);
    }
    if orderedKey.Some? && orderedKey.value != "" {
      var k := orderedKey.value;
      SoundRecordedStep(keys, currentOrder, result, i);
      if Canonical(keys, currentOrder) {
        CanonicalRecordedStep(keys, currentOrder, i, consumed, result);
      }
      result', available', consumed' := MapSet(result, k, i), available, consumed;
    } else {
      var availableKey;
      availableKey, available', consumed' := NextAvailable(keys, currentOrder, i, available, consumed, result);
      if availableKey != "" {
        SoundScanStep(keys, currentOrder, result, availableKey, i);
        result' := MapSet(result, availableKey, i);
      } else {
        SoundSkip(keys, currentOrder, result, i);
        result' := result;
      }
    }
  }

  /** What `OrderOf` keeps true of the entries placed at positions below `bound`. */
  ghost predicate Sound(keys: seq<string>, m: Order, result: Order, bound: int) {
    Placed(result, bound) &&
    (forall e <- result :: Has(m, e.0) ==> Lookup(m, e.0) == Some(e.1)) &&
    (forall e <- result :: !Has(m, e.0) ==> e.0 in keys) &&
    KeepsRecorded(m, result, bound)
  }

  /** Placing the key recorded at position `i`. */
  lemma SoundRecordedStep(keys: seq<string>, m: Order, result: Order, i: int)
    requires DistinctKeys(m) && 0 <= i && Sound(keys, m, result, i)
    requires PositionKey(m, i).Some? && PositionKey(m, i).value != ""
    ensures var k := PositionKey(m, i).value;
            MapSet(result, k, i) == result + [(k, i)] && Sound(keys, m, result + [(k, i)], i + 1)
  {
    var k := PositionKey(m, i).value;
    PositionKeyLookup(m, i);
    assert Has(m, k);
    assert !Has(result, k);
    PlacedAppend(result, k, i);
    KeepsRecordedStep(m, result, result + [(k, i)], i);
  }

  /** Placing a scanned column key at an unfilled position `i`. */
  lemma SoundScanStep(keys: seq<string>, m: Order, result: Order, k: string, i: int)
    requires 0 <= i && Sound(keys, m, result, i)
    requires !Has(result, k) && !Has(m, k) && k in keys
    requires PositionKey(m, i).None? || PositionKey(m, i).value == ""
    ensures MapSet(result, k, i) == result + [(k, i)] && Sound(keys, m, result + [(k, i)], i + 1)
  {
    PlacedAppend(result, k, i);
    KeepsRecordedStep(m, result, result + [(k, i)], i);
  }

  /** Leaving position `i` unfilled. */
  lemma SoundSkip(keys: seq<string>, m: Order, result: Order, i: int)
    requires Sound(keys, m, result, i)
    requires PositionKey(m, i).None? || PositionKey(m, i).value == ""
    ensures Sound(keys, m, result, i + 1)
  {
    KeepsRecordedStep(m, result, result, i);
  }

  /** Keys distinct, positions below `bound` and strictly increasing. */
  ghost predicate Placed(result: Order, bound: int) {
    DistinctKeys(result) &&
    (forall j :: 0 <= j < |result| ==> 0 <= result[j].1 < bound) &&
    (forall j, k :: 0 <= j < k < |result| ==> result[j].1 < result[k].1)
  }

  /** Placing a new key at the next position keeps the entries in order. */
  lemma PlacedAppend(result: Order, key: string, i: int)
    requires Placed(result, i) && 0 <= i && !Has(result, key)
    ensures MapSet(result, key, i) == result + [(key, i)]
    ensures Placed(result + [(key, i)], i + 1)
  {
    MapSetShape(result, key, i);
    var r := result + [(key, i)];
    forall j, k | 0 <= j < k < |r| ensures r[j].0 != r[k].0 && r[j].1 < r[k].1 {
      assert r[j] == result[j];
      if k == |result| {
        assert r[k] == (key, i);
      } else {
        assert r[k] == result[k];
      }
    }
    forall j | 0 <= j < |r| ensures 0 <= r[j].1 < i + 1 {
      if j < |result| {
        assert r[j] == result[j];
      }
    }
  }

  /**
   * The scan for an unfilled position `i`: take keys off the front of
   * `available` until one is empty (the scan stops, nothing is found) or
   * is neither placed in `result` nor recorded in `m`. The empty string
   * stands for "nothing found".
   */
  method NextAvailable(keys: seq<string>, m: Order, i: nat, available: seq<string>,
                       ghost consumed: nat, result: Order)
    returns (availableKey: string, available': seq<string>, ghost consumed': nat)
    requires consumed <= |keys| && available == keys[consumed..]
    requires i < |keys| && (PositionKey(m, i).None? || PositionKey(m, i).value == "")
    requires Canonical(keys, m) ==> CanonicalAt(keys, m, i, consumed, result)
    ensures consumed' <= |keys| && available' == keys[consumed'..]
    ensures availableKey != "" ==> !Has(result, availableKey) && !Has(m, availableKey) && availableKey in keys
    ensures Canonical(keys, m) ==>
              availableKey != "" && CanonicalAt(keys, m, i + 1, consumed', result + [(availableKey, i)])
  {
    if Canonical(keys, m) {
      CanonicalPositionKey(keys, m, i);
    }
    available', consumed' := available, consumed;
    availableKey := "";
    while available' != []
      invariant consumed' <= |keys| && available' == keys[consumed'..]
      invariant Canonical(keys, m) ==> CanonicalAt(keys, m, i, consumed', result)
      decreases |available'|
    {
      var k := available'[0];
      if Canonical(keys, m) {
        CanonicalScanStep(keys, m, i, consumed', result);
      }
      available' := available'[1..];
      consumed' := consumed' + 1;
      if k == "" || !(Has(result, k) || Has(m, k)) {
        availableKey := k;
        return;
      }
    }
    if Canonical(keys, m) {
      CanonicalScanEnds(keys, m, i, consumed', result);
    }
  }

  /** Every key recorded at a position below `bound` (and non-empty) is placed there. */
  ghost predicate KeepsRecorded(m: Order, result: Order, bound: int) {
    forall p :: (0 <= p < bound && PositionKey(m, p).Some? && PositionKey(m, p).value != "") ==>
                  (PositionKey(m, p).value, p) in result
  }

  lemma KeepsRecordedStep(m: Order, result: Order, result': Order, i: int)
    requires KeepsRecorded(m, result, i)
    requires forall e <- result :: e in result'
    requires (PositionKey(m, i).Some? && PositionKey(m, i).value != "") ==>
               (PositionKey(m, i).value, i) in result'
    ensures KeepsRecorded(m, result', i + 1)
  {
  }

  /** In the canonical situation a key found at a position below `n` is a non-empty column key. */
  lemma CanonicalPositionKey(keys: seq<string>, m: Order, p: int)
    requires Canonical(keys, m)
    ensures PositionKey(m, p).Some? ==> PositionKey(m, p).value in keys && PositionKey(m, p).value != ""
  {
    PositionKeyFound(m, p);
    if PositionKey(m, p).Some? {
      var j :| 0 <= j < |m| && m[j] == (PositionKey(m, p).value, p);
      assert m[j] in m;
    }
  }

  /** The column keys that have no recorded position, in column order. */
  ghost function Unplaced(keys: seq<string>, m: Order): seq<string> {
    Unrecorded(keys, KeySet(m))
  }

  /** How many of the positions `0 .. i-1` have no key recorded. */
  ghost function Free(m: Order, i: nat): nat {
    FreeBefore(PositionSet(m), i)
  }

  /**
   * The canonical-situation loop invariant: after `i` positions, `result`
   * is the first `i` entries of `Expected`, and the keys consumed so far
   * hold exactly the unrecorded keys placed so far.
   */
  ghost predicate CanonicalAt(keys: seq<string>, m: Order, i: nat, consumed: nat, result: Order)
    requires Canonical(keys, m)
  {
    i <= |keys| && consumed <= |keys| &&
    result == Expected(keys, m)[..i] &&
    Free(m, i) <= |Unplaced(keys, m)| &&
    Unplaced(keys[..consumed], m) == Unplaced(keys, m)[..Free(m, i)]
  }

  // ---------------------------------------------------------------------
  // The reference definition and its properties

  /**
   * What `orderOf` yields in the canonical situation: position `i` holds
   * the key recorded at `i`, or else the next unrecorded column key, so
   * that the unrecorded keys fill the free positions in column order.
   */
  ghost function Expected(keys: seq<string>, m: Order): (r: Order)
    requires Canonical(keys, m)
    ensures |r| == |keys|
    ensures forall i :: 0 <= i < |keys| ==> r[i].1 == i
  {
    seq(|keys|, i requires 0 <= i < |keys| => (SlotKey(keys, m, i), i))
  }

  /** The key `Expected` puts at position `i`. */
  ghost function SlotKey(keys: seq<string>, m: Order, i: nat): string
    requires Canonical(keys, m) && i < |keys|
  {
    if PositionKey(m, i).Some? then PositionKey(m, i).value
    else
      PositionKeyIff(m, i);
      FreeCount(keys, m);
      FreeBeforeMonotone(PositionSet(m), i + 1, |keys|);
      Unplaced(keys, m)[Free(m, i)]
  }

  lemma {:induction false} FreeBeforeMonotone(taken: set<int>, i: nat, j: nat)
    requires i <= j
    ensures FreeBefore(taken, i) <= FreeBefore(taken, j) <= FreeBefore(taken, i) + (j - i)
  {
    if i < j {
      FreeBeforeMonotone(taken, i, j - 1);
    }
  }

  /** A sequence without repeats has as many distinct elements as entries. */
  lemma {:induction false} DistinctCard<T>(s: seq<T>)
    requires Distinct(s)
    ensures |set x | x in s| == |s|
  {
    if s != [] {
      var init := s[..|s| - 1];
      DistinctCard(init);
      assert (set x | x in s) == (set x | x in init) + {s[|s| - 1]};
    }
  }

  /** `FreeBefore` counts the positions below `i` outside `taken`. */
  lemma {:induction false} FreeBeforeCount(taken: set<int>, i: nat)
    ensures FreeBefore(taken, i) + |set p | p in taken && 0 <= p < i| == i
  {
    if i > 0 {
      FreeBeforeCount(taken, i - 1);
      var below := set p | p in taken && 0 <= p < i - 1;
      var upTo := set p | p in taken && 0 <= p < i;
      if i - 1 in taken {
        assert upTo == below + {i - 1};
        assert i - 1 !in below;
      } else {
        assert upTo == below;
      }
    }
  }

  /** The keys outside `recorded` and the keys inside it make up all the keys. */
  lemma {:induction false} UnrecordedCount(keys: seq<string>, recorded: set<string>)
    requires Distinct(keys)
    ensures |Unrecorded(keys, recorded)| + |set k | k in keys && k in recorded| == |keys|
  {
    if keys != [] {
      var init := keys[..|keys| - 1];
      var last := keys[|keys| - 1];
      UnrecordedCount(init, recorded);
      var before := set k | k in init && k in recorded;
      var after := set k | k in keys && k in recorded;
      assert last !in init;
      assert forall k :: k in keys <==> k in init || k == last;
      if last in recorded {
        assert after == before + {last};
      } else {
        assert after == before;
      }
    }
  }

  /** With distinct keys and distinct positions, a map has as many of each as entries. */
  lemma KeyAndPositionCount(m: Order)
    requires DistinctKeys(m)
    requires forall i, j :: 0 <= i < j < |m| ==> m[i].1 != m[j].1
    ensures |KeySet(m)| == |m| && |PositionSet(m)| == |m|
  {
    var firsts := seq(|m|, i requires 0 <= i < |m| => m[i].0);
    var seconds := seq(|m|, i requires 0 <= i < |m| => m[i].1);
    DistinctCard(firsts);
    DistinctCard(seconds);
    assert KeySet(m) == set x | x in firsts by {
      forall x | x in KeySet(m) ensures x in firsts {
        var e :| e in m && e.0 == x;
        var i :| 0 <= i < |m| && m[i] == e;
        assert firsts[i] == x;
      }
    }
    assert PositionSet(m) == set x | x in seconds by {
      forall x | x in PositionSet(m) ensures x in seconds {
        var e :| e in m && e.1 == x;
        var i :| 0 <= i < |m| && m[i] == e;
        assert seconds[i] == x;
      }
    }
  }

  /**
   * In the canonical situation there are exactly as many free positions
   * as unrecorded keys: one for each column without a recorded position.
   */
  lemma FreeCount(keys: seq<string>, m: Order)
    requires Canonical(keys, m)
    ensures Free(m, |keys|) == |Unplaced(keys, m)| == |keys| - |m|
  {
    var n := |keys|;
    FreeBeforeCount(PositionSet(m), n);
    UnrecordedCount(keys, KeySet(m));
    KeyAndPositionCount(m);
    assert (set p | p in PositionSet(m) && 0 <= p < n) == PositionSet(m);
    assert (set k | k in keys && k in KeySet(m)) == KeySet(m);
  }

  lemma {:induction false} UnrecordedPrefix(keys: seq<string>, recorded: set<string>, c: nat)
    requires c <= |keys|
    ensures Unrecorded(keys[..c], recorded) <= Unrecorded(keys, recorded)
  {
    if c < |keys| {
      UnrecordedPrefix(keys[..|keys| - 1], recorded, c);
      assert keys[..|keys| - 1][..c] == keys[..c];
    } else {
      assert keys[..c] == keys;
    }
  }

  lemma {:induction false} UnrecordedMembers(keys: seq<string>, recorded: set<string>)
    ensures forall k <- Unrecorded(keys, recorded) :: k in keys && k !in recorded
  {
    if keys != [] {
      UnrecordedMembers(keys[..|keys| - 1], recorded);
    }
  }

  lemma {:induction false} UnrecordedDistinct(keys: seq<string>, recorded: set<string>)
    requires Distinct(keys)
    ensures Distinct(Unrecorded(keys, recorded))
  {
    if keys != [] {
      var init := keys[..|keys| - 1];
      UnrecordedDistinct(init, recorded);
      UnrecordedMembers(init, recorded);
    }
  }

  /** What `Expected` holds at a position without a recorded key. */
  lemma FreeSlot(keys: seq<string>, m: Order, j: nat)
    requires Canonical(keys, m) && j < |keys| && PositionKey(m, j).None?
    ensures Free(m, j) < Free(m, j + 1) <= |Unplaced(keys, m)|
    ensures Expected(keys, m)[j].0 == Unplaced(keys, m)[Free(m, j)]
    ensures Expected(keys, m)[j].0 !in KeySet(m)
  {
    PositionKeyIff(m, j);
    FreeCount(keys, m);
    FreeBeforeMonotone(PositionSet(m), j + 1, |keys|);
    UnrecordedMembers(keys, KeySet(m));
  }

  /** What `Expected` holds at a position with a recorded key. */
  lemma RecordedSlot(keys: seq<string>, m: Order, j: nat)
    requires Canonical(keys, m) && j < |keys| && PositionKey(m, j).Some?
    ensures Expected(keys, m)[j].0 == PositionKey(m, j).value
    ensures Lookup(m, Expected(keys, m)[j].0) == Some(j)
  {
    PositionKeyLookup(m, j);
  }

  /** No key sits twice in `Expected`. */
  lemma ExpectedDistinct(keys: seq<string>, m: Order)
    requires Canonical(keys, m)
    ensures DistinctKeys(Expected(keys, m))
  {
    var e := Expected(keys, m);
    UnrecordedDistinct(keys, KeySet(m));
    forall i, j | 0 <= i < j < |e| ensures e[i].0 != e[j].0 {
      if PositionKey(m, i).Some? {
        RecordedSlot(keys, m, i);
        if PositionKey(m, j).Some? {
          RecordedSlot(keys, m, j);
        } else {
          FreeSlot(keys, m, j);
          HasIff(m, e[i].0);
        }
      } else if PositionKey(m, j).Some? {
        RecordedSlot(keys, m, j);
        FreeSlot(keys, m, i);
        HasIff(m, e[j].0);
      } else {
        FreeSlot(keys, m, i);
        FreeSlot(keys, m, j);
        FreeBeforeMonotone(PositionSet(m), i + 1, j);
      }
    }
  }

  /**
   * A key among the first `i` entries of `Expected` is recorded at a
   * position below `i`, or is one of the unrecorded keys placed so far.
   */
  lemma ExpectedPrefixKeys(keys: seq<string>, m: Order, i: nat, k: string)
    requires Canonical(keys, m) && i <= |keys|
    requires Has(Expected(keys, m)[..i], k)
    ensures Has(m, k) ==> Lookup(m, k).value < i
    ensures !Has(m, k) ==> Free(m, i) <= |Unplaced(keys, m)| && k in Unplaced(keys, m)[..Free(m, i)]
  {
    var e := Expected(keys, m)[..i];
    var j :| 0 <= j < |e| && e[j] == (k, Lookup(e, k).value);
    HasIff(m, k);
    if PositionKey(m, j).Some? {
      RecordedSlot(keys, m, j);
    } else {
      assert Expected(keys, m)[j].0 == k;
      FreePrefixKey(keys, m, i, j);
    }
  }

  /** The unrecorded key `Expected` puts at a free position `j < i` is among the first `Free(m, i)`. */
  lemma FreePrefixKey(keys: seq<string>, m: Order, i: nat, j: nat)
    requires Canonical(keys, m) && j < i <= |keys| && PositionKey(m, j).None?
    ensures Free(m, i) <= |Unplaced(keys, m)|
    ensures Expected(keys, m)[j].0 in Unplaced(keys, m)[..Free(m, i)]
    ensures Expected(keys, m)[j].0 !in KeySet(m)
  {
    FreeSlot(keys, m, j);
    FreeCount(keys, m);
    FreeBeforeMonotone(PositionSet(m), j + 1, i);
    FreeBeforeMonotone(PositionSet(m), i, |keys|);
    var u := Unplaced(keys, m);
    var fj, fi := Free(m, j), Free(m, i);
    assert u[..fi][fj] == u[fj];
  }

  lemma CanonicalRecordedStep(keys: seq<string>, m: Order, i: nat, consumed: nat, result: Order)
    requires Canonical(keys, m) && i < |keys| && PositionKey(m, i).Some?
    requires CanonicalAt(keys, m, i, consumed, result)
    ensures !Has(result, PositionKey(m, i).value)
    ensures CanonicalAt(keys, m, i + 1, consumed, result + [(PositionKey(m, i).value, i)])
  {
    var k := PositionKey(m, i).value;
    RecordedSlot(keys, m, i);
    PositionKeyIff(m, i);
    if Has(result, k) {
      ExpectedPrefixKeys(keys, m, i, k);
    }
    var e := Expected(keys, m);
    PrefixStep(e, i);
  }

  /** One step of the scan for an unrecorded key, in the canonical situation. */
  lemma CanonicalScanStep(keys: seq<string>, m: Order, i: nat, consumed: nat, result: Order)
    requires Canonical(keys, m) && i < |keys| && PositionKey(m, i).None? && consumed < |keys|
    requires CanonicalAt(keys, m, i, consumed, result)
    ensures keys[consumed] != ""
    ensures Has(m, keys[consumed]) ==> CanonicalAt(keys, m, i, consumed + 1, result)
    ensures !Has(m, keys[consumed]) ==>
              !Has(result, keys[consumed]) &&
              CanonicalAt(keys, m, i + 1, consumed + 1, result + [(keys[consumed], i)])
  {
    assert keys[consumed] in keys;
    if Has(m, keys[consumed]) {
      CanonicalScanSkip(keys, m, i, consumed, result);
    } else {
      CanonicalScanTake(keys, m, i, consumed, result);
    }
  }

  /** A recorded key met by the scan is passed over. */
  lemma CanonicalScanSkip(keys: seq<string>, m: Order, i: nat, consumed: nat, result: Order)
    requires Canonical(keys, m) && i < |keys| && consumed < |keys| && Has(m, keys[consumed])
    requires CanonicalAt(keys, m, i, consumed, result)
    ensures CanonicalAt(keys, m, i, consumed + 1, result)
  {
    HasIff(m, keys[consumed]);
    assert keys[..consumed + 1][..consumed] == keys[..consumed];
  }

  /** An unrecorded key met by the scan is the next unrecorded key `Expected` places, at `i`. */
  lemma CanonicalScanTake(keys: seq<string>, m: Order, i: nat, consumed: nat, result: Order)
    requires Canonical(keys, m) && i < |keys| && PositionKey(m, i).None? && consumed < |keys|
    requires !Has(m, keys[consumed])
    requires CanonicalAt(keys, m, i, consumed, result)
    ensures !Has(result, keys[consumed])
    ensures CanonicalAt(keys, m, i + 1, consumed + 1, result + [(keys[consumed], i)])
  {
    var k := keys[consumed];
    var u := Unplaced(keys, m);
    var f := Free(m, i);
    assert keys[..consumed + 1][..consumed] == keys[..consumed];
    assert keys[..consumed + 1][consumed] == k;
    HasIff(m, k);
    PositionKeyIff(m, i);
    FreeSlot(keys, m, i);
    UnrecordedPrefix(keys, KeySet(m), consumed + 1);
    assert Unplaced(keys[..consumed + 1], m) == u[..f] + [k];
    assert u[f] == k;
    PrefixStep(u, f);
    assert Free(m, i + 1) == f + 1;
    if Has(result, k) {
      ExpectedPrefixKeys(keys, m, i, k);
      UnrecordedMembers(keys[..consumed], KeySet(m));
      assert false;
    }
    PrefixStep(Expected(keys, m), i);
  }

  /** In the canonical situation the scan never runs out of keys. */
  lemma CanonicalScanEnds(keys: seq<string>, m: Order, i: nat, consumed: nat, result: Order)
    requires Canonical(keys, m) && i < |keys| && PositionKey(m, i).None?
    requires CanonicalAt(keys, m, i, consumed, result)
    ensures consumed < |keys|
  {
    FreeSlot(keys, m, i);
    assert keys[..|keys|] == keys;
  }

  /** Each count below the number of free positions is reached at some free position. */
  lemma {:induction false} FreeAt(taken: set<int>, t: nat, n: nat) returns (i: nat)
    requires t < FreeBefore(taken, n)
    ensures i < n && i !in taken && FreeBefore(taken, i) == t
  {
    assert n > 0;
    if t < FreeBefore(taken, n - 1) {
      i := FreeAt(taken, t, n - 1);
    } else {
      assert FreeBefore(taken, n) == FreeBefore(taken, n - 1) + (if n - 1 in taken then 0 else 1);
      i := n - 1;
    }
  }

  /**
   * In the canonical situation the result is a bijection between the
   * column keys and the positions `0 .. n-1`.
   */
  lemma ExpectedBijection(keys: seq<string>, m: Order)
    requires Canonical(keys, m)
    ensures DistinctKeys(Expected(keys, m))
    ensures forall i :: 0 <= i < |keys| ==> Expected(keys, m)[i].1 == i
    ensures forall k :: k in keys <==> exists i :: 0 <= i < |keys| && Expected(keys, m)[i].0 == k
  {
    ExpectedDistinct(keys, m);
    var e := Expected(keys, m);
    forall k | k in keys ensures exists i :: 0 <= i < |keys| && e[i].0 == k {
      HasIff(m, k);
      var i;
      if Has(m, k) {
        i := RecordedKeyPlaced(keys, m, k);
      } else {
        i := UnrecordedKeyPlaced(keys, m, k);
      }
    }
    forall i | 0 <= i < |keys| ensures e[i].0 in keys {
      ExpectedKeyListed(keys, m, i);
    }
  }

  /** A recorded key sits at its recorded position. */
  lemma RecordedKeyPlaced(keys: seq<string>, m: Order, k: string) returns (p: nat)
    requires Canonical(keys, m) && Has(m, k)
    ensures p < |keys| && Expected(keys, m)[p].0 == k
  {
    p := Lookup(m, k).value;
    var j :| 0 <= j < |m| && m[j] == (k, p);
    assert m[j] in m;
    assert PositionKey(m, p).Some? by {
      PositionKeyIff(m, p);
    }
    RecordedSlot(keys, m, p);
    LookupUnique(m, j);
  }

  /** An unrecorded key sits at the free position its rank among the unrecorded keys names. */
  lemma UnrecordedKeyPlaced(keys: seq<string>, m: Order, k: string) returns (i: nat)
    requires Canonical(keys, m) && k in keys && !Has(m, k)
    ensures i < |keys| && Expected(keys, m)[i].0 == k
  {
    HasIff(m, k);
    var c :| 0 <= c < |keys| && keys[c] == k;
    UnrecordedPrefix(keys, KeySet(m), c + 1);
    PrefixStep(keys, c);
    var t := |Unplaced(keys[..c], m)|;
    assert Unplaced(keys[..c + 1], m) == Unplaced(keys[..c], m) + [k];
    assert Unplaced(keys, m)[t] == k;
    FreeCount(keys, m);
    i := FreeAt(PositionSet(m), t, |keys|);
    PositionKeyIff(m, i);
    FreeSlot(keys, m, i);
  }

  /** Every key `Expected` places is a column key. */
  lemma ExpectedKeyListed(keys: seq<string>, m: Order, i: nat)
    requires Canonical(keys, m) && i < |keys|
    ensures Expected(keys, m)[i].0 in keys
  {
    if PositionKey(m, i).Some? {
      PositionKeyFound(m, i);
      var j :| 0 <= j < |m| && m[j] == (PositionKey(m, i).value, i);
      assert m[j] in m;
    } else {
      FreeSlot(keys, m, i);
      UnrecordedMembers(keys, KeySet(m));
    }
  }


  /** With nothing recorded, the i-th column key gets position i. */
  lemma EmptyOrderIsIdentity(keys: seq<string>)
    requires Distinct(keys) && forall k <- keys :: k != ""
    ensures Canonical(keys, [])
    ensures Expected(keys, []) == seq(|keys|, i requires 0 <= i < |keys| => (keys[i], i))
  {
    assert KeySet([]) == {} && PositionSet([]) == {};
    UnrecordedAll(keys);
    forall i | 0 <= i < |keys| ensures Expected(keys, [])[i].0 == keys[i] {
      FreeBeforeIdentity(i);
    }
  }

  lemma {:induction false} FreeBeforeIdentity(i: nat)
    ensures FreeBefore({}, i) == i
  {
    if i > 0 {
      FreeBeforeIdentity(i - 1);
    }
  }

  lemma {:induction false} UnrecordedAll(keys: seq<string>)
    ensures Unrecorded(keys, {}) == keys
  {
    if keys != [] {
      UnrecordedAll(keys[..|keys| - 1]);
    }
  }

  /**
   * A recorded order that already places every column is returned with
   * every key at its recorded position.
   */
  lemma FullOrderUnchanged(keys: seq<string>, m: Order)
    requires Canonical(keys, m) && |m| == |keys|
    ensures forall e <- m :: e in Expected(keys, m)
    ensures forall e <- Expected(keys, m) :: Lookup(m, e.0) == Some(e.1)
  {
    FreeCount(keys, m);
    var e := Expected(keys, m);
    forall x | x in m ensures x in e {
      var j :| 0 <= j < |m| && m[j] == x;
      LookupUnique(m, j);
      assert PositionKey(m, x.1).Some? by {
        PositionKeyIff(m, x.1);
      }
      RecordedSlot(keys, m, x.1);
      assert e[x.1] == x;
    }
    forall x | x in e ensures Lookup(m, x.0) == Some(x.1) {
      var i :| 0 <= i < |e| && e[i] == x;
      if PositionKey(m, i).None? {
        FreeSlot(keys, m, i);
      }
      RecordedSlot(keys, m, i);
    }
  }
}
