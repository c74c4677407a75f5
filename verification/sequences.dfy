/**
 * Order-preserving selection from a sequence.  The game rebuilds its
 * player, bullet and item lists by appending the survivors of a pass to a
 * fresh list; `Filter` is that list, and the lemmas below say it is
 * exactly the kept elements, in their original order.
 */
module Sequences {

  /** The elements s[k] with keep[k], in the order they occur in s. */
  function Filter<T>(s: seq<T>, keep: seq<bool>): (r: seq<T>)
    requires |keep| == |s|
    ensures |r| <= |s|
    decreases |s|
  {
    if s == [] then []
    else
      var n := |s| - 1;
      Filter(s[..n], keep[..n]) + (if keep[n] then [s[n]] else [])
  }

  /** The indices k with keep[k], in increasing order. */
  function Positions(keep: seq<bool>): (r: seq<nat>)
    decreases |keep|
  {
    if keep == [] then []
    else
      var n := |keep| - 1;
      Positions(keep[..n]) + (if keep[n] then [n] else [])
  }

  /** Every position is a valid index, positions increase strictly, and an
      index is a position exactly when it is kept. */
  lemma {:induction false} PositionsExact(keep: seq<bool>)
    ensures forall i | 0 <= i < |Positions(keep)| :: Positions(keep)[i] < |keep|
    ensures forall i, j | 0 <= i < j < |Positions(keep)| :: Positions(keep)[i] < Positions(keep)[j]
    ensures forall k | 0 <= k < |keep| :: keep[k] <==> k in Positions(keep)
    decreases |keep|
  {
    if keep != [] {
      var n := |keep| - 1;
      PositionsExact(keep[..n]);
      assert forall k | 0 <= k < n :: keep[..n][k] == keep[k];
    }
  }

  /** The filtered sequence is the input read at the kept positions. */
  lemma {:induction false} FilterAtPositions<T>(s: seq<T>, keep: seq<bool>)
    requires |keep| == |s|
    ensures |Filter(s, keep)| == |Positions(keep)|
    ensures forall i | 0 <= i < |Positions(keep)| ::
      Positions(keep)[i] < |s| && Filter(s, keep)[i] == s[Positions(keep)[i]]
    decreases |s|
  {
    PositionsExact(keep);
    if s != [] {
      var n := |s| - 1;
      FilterAtPositions(s[..n], keep[..n]);
    }
  }

  /** Filtering keeps exactly the kept elements: x survives iff it occurs
      at some kept index.  (Order: `FilterAtPositions` with `PositionsExact`.) */
  lemma FilterSelects<T>(s: seq<T>, keep: seq<bool>)
    requires |keep| == |s|
    ensures forall x :: x in Filter(s, keep) <==> exists k | 0 <= k < |s| :: keep[k] && s[k] == x
  {
    FilterAtPositions(s, keep);
    PositionsExact(keep);
    var p := Positions(keep);
    forall x | (exists k | 0 <= k < |s| :: keep[k] && s[k] == x)
      ensures x in Filter(s, keep)
    {
      var k :| 0 <= k < |s| && keep[k] && s[k] == x;
      assert k in p;
      var i :| 0 <= i < |p| && p[i] == k;
      assert Filter(s, keep)[i] == x;
    }
  }

  /** Appending one step of the rebuilding loop extends the filter. */
  lemma FilterSnoc<T>(s: seq<T>, keep: seq<bool>, i: nat)
    requires |keep| == |s| && i < |s|
    ensures Filter(s[..i+1], keep[..i+1]) ==
            Filter(s[..i], keep[..i]) + (if keep[i] then [s[i]] else [])
  {
    assert s[..i+1][..i] == s[..i];
    assert keep[..i+1][..i] == keep[..i];
  }

  /** Filtering keeps every property of single elements and of ordered
      pairs of elements that the input had. */
  lemma FilterKeeps<T>(s: seq<T>, keep: seq<bool>, ok: T -> bool, apart: (T, T) -> bool)
    requires |keep| == |s|
    requires forall i | 0 <= i < |s| :: ok(s[i])
    requires forall i, j | 0 <= i < j < |s| :: apart(s[i], s[j])
    ensures forall i | 0 <= i < |Filter(s, keep)| :: ok(Filter(s, keep)[i])
    ensures forall i, j | 0 <= i < j < |Filter(s, keep)| :: apart(Filter(s, keep)[i], Filter(s, keep)[j])
  {
    FilterAtPositions(s, keep);
    PositionsExact(keep);
  }

  /** Filtering a sequence grown by one element. */
  lemma FilterAppend<T>(t: seq<T>, keep: seq<bool>, y: T, x: bool)
    requires |keep| == |t|
    ensures Filter(t + [y], keep + [x]) == Filter(t, keep) + (if x then [y] else [])
  {
    assert (t + [y])[..|t|] == t;
    assert (keep + [x])[..|t|] == keep;
  }

  /** Appending one step of the rebuilding loop extends the filter, with
      the keep flags known only up to the step. */
  lemma FilterExtend<T>(s: seq<T>, keep: seq<bool>, x: bool)
    requires |keep| < |s|
    ensures Filter(s[..|keep| + 1], keep + [x]) ==
            Filter(s[..|keep|], keep) + (if x then [s[|keep|]] else [])
  {
    var k := |keep|;
    assert s[..k + 1] == s[..k] + [s[k]];
    FilterAppend(s[..k], keep, s[k], x);
  }
}
