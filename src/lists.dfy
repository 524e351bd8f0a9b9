/** The parts of Python's list semantics that the models rely on: subscripting
    (with negative indices counting from the end), clamped slicing, sums and counts. */
module Lists {
  import opened Wrappers

  /** The position that `xs[i]` reads in a list of length `n`, or None where Python
      raises IndexError. */
  function Subscript(n: nat, i: int): (r: Option<nat>)
    ensures r.Some? <==> -(n as int) <= i < n
    ensures r.Some? ==> r.value < n
    ensures 0 <= i < n ==> r == Some(i)
    ensures -(n as int) <= i < 0 ==> r == Some(n + i)
  {
    if 0 <= i < n then Some(i)
    else if -(n as int) <= i < 0 then Some(n + i)
    else None
  }

  /** `xs[i:j]` for non-negative bounds: both bounds are clamped to the length. */
  function Slice<T>(xs: seq<T>, i: nat, j: nat): (r: seq<T>)
    ensures |r| == if i <= j && i <= |xs| then (if j <= |xs| then j else |xs|) - i else 0
    ensures forall k :: 0 <= k < |r| ==> r[k] == xs[i + k]
  {
    if i >= |xs| || j <= i then []
    else if j <= |xs| then xs[i..j]
    else xs[i..]
  }

  function Sum(xs: seq<int>): int
  {
    if xs == [] then 0 else xs[0] + Sum(xs[1..])
  }

  lemma {:induction false} SumAppend(xs: seq<int>, ys: seq<int>)
    ensures Sum(xs + ys) == Sum(xs) + Sum(ys)
  {
    if xs != [] {
      assert (xs + ys)[1..] == xs[1..] + ys;
      SumAppend(xs[1..], ys);
    } else {
      assert xs + ys == ys;
    }
  }

  lemma SumSnoc(xs: seq<int>, x: int)
    ensures Sum(xs + [x]) == Sum(xs) + x
  {
    SumAppend(xs, [x]);
  }

  /** `xs.count(x)`. */
  function Count<T(==)>(xs: seq<T>, x: T): (c: nat)
    ensures c <= |xs|
    ensures c > 0 <==> x in xs
  {
    if xs == [] then 0 else (if xs[0] == x then 1 else 0) + Count(xs[1..], x)
  }

  lemma {:induction false} CountAppend<T>(xs: seq<T>, ys: seq<T>, x: T)
    ensures Count(xs + ys, x) == Count(xs, x) + Count(ys, x)
  {
    if xs != [] {
      assert (xs + ys)[1..] == xs[1..] + ys;
      CountAppend(xs[1..], ys, x);
    } else {
      assert xs + ys == ys;
    }
  }

  /** Counting over one more element of a prefix. */
  lemma CountPrefix<T>(xs: seq<T>, k: nat, x: T)
    requires k < |xs|
    ensures Count(xs[..k + 1], x) == Count(xs[..k], x) + (if xs[k] == x then 1 else 0)
  {
    CountAppend(xs[..k], [xs[k]], x);
    assert xs[..k + 1] == xs[..k] + [xs[k]];
  }

  /** `xs.index(x)`: the first position holding `x`. */
  function IndexOf<T(==)>(xs: seq<T>, x: T): (i: nat)
    requires x in xs
    ensures i < |xs| && xs[i] == x
    ensures forall j :: 0 <= j < i ==> xs[j] != x
  {
    if xs[0] == x then 0 else 1 + IndexOf(xs[1..], x)
  }
}
