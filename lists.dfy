/**
 * Python list operations that several collections of the library use on
 * their lists of objects: `x in xs`, `xs.index(x)` and `xs.remove(x)`.
 * Objects compare by identity, as Python objects without `__eq__` do.
 */
module Lists {
  /** `xs.index(x)`, or `|xs|` when `x` is absent. */
  function IndexOf<T(==)>(xs: seq<T>, x: T): (k: nat)
    ensures k <= |xs|
    ensures k < |xs| <==> x in xs
    ensures k < |xs| ==> xs[k] == x
    ensures x !in xs[..k]
    decreases |xs|
  {
    if xs == [] then 0
    else if xs[0] == x then 0
    else
      var k := 1 + IndexOf(xs[1..], x);
      assert xs[..k] == [xs[0]] + xs[1..][..k - 1];
      k
  }

  /** `xs.remove(x)`: putting `x` back at its first position restores the list. */
  function RemoveFirst<T(==)>(xs: seq<T>, x: T): (r: seq<T>)
    requires x in xs
    ensures |r| == |xs| - 1
    ensures xs == r[..IndexOf(xs, x)] + [x] + r[IndexOf(xs, x)..]
    ensures x !in r[..IndexOf(xs, x)]
    ensures multiset(r) + multiset{x} == multiset(xs)
  {
    var k := IndexOf(xs, x);
    var r := xs[..k] + xs[k + 1..];
    assert r[..k] == xs[..k];
    assert r[k..] == xs[k + 1..];
    assert xs == xs[..k] + [x] + xs[k + 1..];
    r
  }

  /** After `xs.remove(x)`, the items before the first `x` keep their places and the rest move down by one. */
  lemma RemoveFirstAt<T>(xs: seq<T>, x: T)
    requires x in xs
    ensures var k := IndexOf(xs, x);
      forall i :: 0 <= i < |RemoveFirst(xs, x)| ==> RemoveFirst(xs, x)[i] == xs[if i < k then i else i + 1]
  {
    var k := IndexOf(xs, x);
    var r := RemoveFirst(xs, x);
    assert xs == r[..k] + [x] + r[k..];
    forall i | 0 <= i < |r| ensures r[i] == xs[if i < k then i else i + 1] {
      if i < k {
        assert xs[i] == r[..k][i];
      } else {
        assert xs[i + 1] == r[k..][i - k];
      }
    }
  }
}
