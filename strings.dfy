/** String helpers the source takes from the JavaScript runtime. */
module Strings {
  import opened Wrappers

  /** `Array.prototype.join(sep)` */
  function Join(xs: seq<string>, sep: string): (r: string)
    ensures xs == [] ==> r == ""
    ensures |xs| == 1 ==> r == xs[0]
  {
    if xs == [] then ""
    else if |xs| == 1 then xs[0]
    else xs[0] + sep + Join(xs[1..], sep)
  }

  /** A decimal digit. */
  function Digit(d: nat): (c: char)
    requires d < 10
    ensures '0' <= c <= '9'
  {
    ['0', '1', '2', '3', '4', '5', '6', '7', '8', '9'][d]
  }

  /** A non-negative integer in decimal, as template literals render it. */
  function NatToString(n: nat): (r: string)
    ensures |r| >= 1 && forall c <- r :: '0' <= c <= '9'
    ensures n < 10 ==> r == [Digit(n)]
  {
    if n < 10 then [Digit(n)] else NatToString(n / 10) + [Digit(n % 10)]
  }

  /** Whether `sep` occurs in `s` starting at position `k`. */
  predicate OccursAt(s: string, sep: string, k: nat) {
    k + |sep| <= |s| && s[k..k + |sep|] == sep
  }

  /** `s.indexOf(sep, k)` for a non-empty `sep`: its first occurrence from `k` on. */
  function IndexFrom(s: string, sep: string, k: nat): (r: Option<nat>)
    requires |sep| > 0 && k <= |s|
    ensures r.Some? ==> k <= r.value && OccursAt(s, sep, r.value)
    ensures r.Some? ==> forall j :: k <= j < r.value ==> !OccursAt(s, sep, j)
    ensures r.None? ==> forall j :: k <= j <= |s| ==> !OccursAt(s, sep, j)
    decreases |s| - k
  {
    if k + |sep| > |s| then None
    else if s[k..k + |sep|] == sep then Some(k)
    else IndexFrom(s, sep, k + 1)
  }

  /**
   * `String.prototype.split(sep)`: the pieces between the occurrences of
   * `sep`, found left to right; an empty separator splits into characters.
   */
  function Split(s: string, sep: string): (parts: seq<string>) {
    if sep == [] then seq(|s|, i requires 0 <= i < |s| => [s[i]]) else Pieces(s, sep)
  }

  /** `split` on a non-empty separator. */
  function Pieces(s: string, sep: string): (parts: seq<string>)
    requires |sep| > 0
    ensures |parts| >= 1
    decreases |s|
  {
    var r := IndexFrom(s, sep, 0);
    if r.None? then [s] else [s[..r.value]] + Pieces(s[r.value + |sep|..], sep)
  }

  /** Joining the pieces of a split with the separator gives back the string. */
  lemma {:induction false} SplitJoin(s: string, sep: string)
    requires |sep| > 0
    ensures Join(Split(s, sep), sep) == s
    decreases |s|
  {
    var r := IndexFrom(s, sep, 0);
    if r.Some? {
      var i := r.value;
      var rest := s[i + |sep|..];
      var tail := Pieces(rest, sep);
      SplitJoin(rest, sep);
      assert Pieces(s, sep) == [s[..i]] + tail;
      JoinCons(s[..i], tail, sep);
      assert s[i..i + |sep|] == sep;
      assert s == s[..i] + s[i..i + |sep|] + rest;
    }
  }

  /** Joining a list with at least two items puts the separator after the first. */
  lemma JoinCons(x: string, xs: seq<string>, sep: string)
    requires |xs| >= 1
    ensures Join([x] + xs, sep) == x + sep + Join(xs, sep)
  {
    assert ([x] + xs)[1..] == xs;
  }

  /** Joining a list with one more item puts the separator before it. */
  lemma {:induction false} JoinSnoc(xs: seq<string>, y: string, sep: string)
    requires |xs| >= 1
    ensures Join(xs + [y], sep) == Join(xs, sep) + sep + y
  {
    if |xs| == 1 {
      assert xs + [y] == [xs[0]] + [y];
      JoinCons(xs[0], [y], sep);
    } else {
      JoinSnoc(xs[1..], y, sep);
      assert xs + [y] == [xs[0]] + (xs[1..] + [y]);
      JoinCons(xs[0], xs[1..] + [y], sep);
      JoinCons(xs[0], xs[1..], sep);
      assert [xs[0]] + xs[1..] == xs;
    }
  }

  /** No piece of a split contains the separator. */
  lemma {:induction false} SplitPiecesFree(s: string, sep: string, n: nat, k: nat)
    requires |sep| > 0 && n < |Split(s, sep)|
    ensures !OccursAt(Split(s, sep)[n], sep, k)
    decreases |s|
  {
    var parts := Pieces(s, sep);
    var r := IndexFrom(s, sep, 0);
    if r.None? {
      assert parts[n] == s;
      PrefixFree(s, sep, |s|, k);
      assert s[..|s|] == s;
    } else {
      var i := r.value;
      var rest := s[i + |sep|..];
      var tail := Pieces(rest, sep);
      assert parts == [s[..i]] + tail;
      if n == 0 {
        PrefixFree(s, sep, i, k);
      } else {
        assert parts[n] == tail[n - 1];
        SplitPiecesFree(rest, sep, n - 1, k);
      }
    }
  }

  /** A prefix of `s` before the first occurrence of `sep` does not contain it. */
  lemma PrefixFree(s: string, sep: string, i: nat, k: nat)
    requires |sep| > 0 && i <= |s| && forall j :: 0 <= j < i ==> !OccursAt(s, sep, j)
    ensures !OccursAt(s[..i], sep, k)
  {
    if k + |sep| <= i {
      assert s[..i][k..k + |sep|] == s[k..k + |sep|];
      assert !OccursAt(s, sep, k);
    }
  }

  /** Splitting `a + sep + b` where `sep` first occurs right after `a`. */
  lemma SplitAt(a: string, sep: string, b: string)
    requires |sep| > 0 && forall k :: 0 <= k < |a| ==> !OccursAt(a + sep, sep, k)
    ensures Split(a + sep + b, sep) == [a] + Split(b, sep)
  {
    var s := a + sep + b;
    var front := s[..|a| + |sep|];
    assert front == a + sep;
    assert s[|a|..|a| + |sep|] == sep;
    forall k | 0 <= k < |a|
      ensures !OccursAt(s, sep, k)
    {
      assert s[k..k + |sep|] == front[k..k + |sep|];
      assert !OccursAt(a + sep, sep, k);
    }
    var r := IndexFrom(s, sep, 0);
    assert OccursAt(s, sep, |a|);
    assert r == Some(|a|);
    assert s[..|a|] == a && s[|a| + |sep|..] == b;
  }

  /** A one-character separator occurs exactly where its character is. */
  lemma OccursAtChar(s: string, sep: string, k: nat)
    requires |sep| == 1
    ensures OccursAt(s, sep, k) <==> k < |s| && s[k] == sep[0]
  {
    if k < |s| {
      assert s[k..k + 1] == [s[k]];
    }
  }

  /**
   * Splitting a join on a one-character separator that no piece contains
   * gives back the pieces.
   */
  lemma {:induction false} JoinSplit(xs: seq<string>, sep: string)
    requires |sep| == 1 && |xs| >= 1
    requires forall x <- xs :: sep[0] !in x
    ensures Split(Join(xs, sep), sep) == xs
  {
    var x := xs[0];
    if |xs| == 1 {
      forall j | 0 <= j <= |x|
        ensures !OccursAt(x, sep, j)
      {
        OccursAtChar(x, sep, j);
        if j < |x| {
          assert x[j] in x;
        }
      }
      assert IndexFrom(x, sep, 0).None?;
    } else {
      forall k | 0 <= k < |x|
        ensures !OccursAt(x + sep, sep, k)
      {
        OccursAtChar(x + sep, sep, k);
        assert (x + sep)[k] == x[k] && x[k] in x;
      }
      JoinCons(x, xs[1..], sep);
      assert [x] + xs[1..] == xs;
      SplitAt(x, sep, Join(xs[1..], sep));
      JoinSplit(xs[1..], sep);
    }
  }
}
