/** Removal of the first occurrence of an item from a list, as the
    inventory's `remove` does. */
module Lists {

  /** The position of the first occurrence of `x` in `xs`. */
  function FirstIndex<T(==)>(xs: seq<T>, x: T): (i: nat)
    requires x in xs
    ensures i < |xs| && xs[i] == x
    ensures x !in xs[..i]
  {
    if xs[0] == x then 0
    else
      var j := FirstIndex(xs[1..], x);
      assert xs[..j + 1] == [xs[0]] + xs[1..][..j];
      j + 1
  }

  /** `xs` with its first occurrence of `x` taken out, as a list removal does. */
  function RemoveFirst<T(==)>(xs: seq<T>, x: T): (r: seq<T>)
    requires x in xs
    ensures |r| == |xs| - 1
    ensures multiset(r) == multiset(xs) - multiset{x}
  {
    if xs[0] == x then
      assert xs == [xs[0]] + xs[1..];
      xs[1..]
    else
      assert xs == [xs[0]] + xs[1..];
      [xs[0]] + RemoveFirst(xs[1..], x)
  }

  /** Removal cuts out exactly the element at the first occurrence and keeps
      everything else in order. */
  lemma {:induction false} RemoveFirstSplices<T>(xs: seq<T>, x: T)
    requires x in xs
    ensures RemoveFirst(xs, x) == xs[..FirstIndex(xs, x)] + xs[FirstIndex(xs, x) + 1..]
  {
    if xs[0] != x {
      RemoveFirstSplices(xs[1..], x);
      var j := FirstIndex(xs[1..], x);
      assert xs[..j + 1] == [xs[0]] + xs[1..][..j];
      assert xs[j + 2..] == xs[1..][j + 1..];
    }
  }

  /** Every element left after a removal was already there. */
  lemma RemoveFirstSubset<T>(xs: seq<T>, x: T, y: T)
    requires x in xs
    requires y in RemoveFirst(xs, x)
    ensures y in xs
  {
    assert multiset(RemoveFirst(xs, x))[y] > 0;
  }
}
