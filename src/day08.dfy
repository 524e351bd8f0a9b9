/** Day 8 (aoc/d08.py): an image sent as a list of digits is cut into layers of
    `w * h` digits; the layers are merged front to back, the first black (0) or
    white (1) pixel at each position winning; and the layer with the fewest
    zeros gives the checksum. The digits are given as integers (the source's
    `int(c)` of each character is left to the caller). */
module Day08 {
  import opened Wrappers
  import opened Lists

  /** Consecutive chunks of `size` items, the last possibly shorter. */
  function Chunks(xs: seq<int>, size: nat): (r: seq<seq<int>>)
    requires size > 0
    decreases |xs|
  {
    if xs == [] then []
    else if |xs| <= size then [xs]
    else [xs[..size]] + Chunks(xs[size..], size)
  }

  function Concat(xss: seq<seq<int>>): seq<int>
  {
    if xss == [] then [] else xss[0] + Concat(xss[1..])
  }

  /** `get_layers`: a comprehension over `range(0, len(img_data), w * h)`. A
      zero step makes `range` raise ValueError (None here); a negative step
      gives no layer at all. */
  function GetLayers(digits: seq<int>, w: int, h: int): (r: Option<seq<seq<int>>>)
    ensures r.None? <==> w * h == 0
    ensures w * h < 0 ==> r == Some([])
    ensures w * h > 0 ==> r.Some? && Concat(r.value) == digits
    ensures w * h > 0 ==> forall i :: 0 <= i < |r.value| ==> 0 < |r.value[i]| <= w * h
    ensures w * h > 0 ==> forall i :: 0 <= i < |r.value| - 1 ==> |r.value[i]| == w * h
  {
    var size := w * h;
    if size == 0 then None
    else if size < 0 then Some([])
    else
      ChunksConcat(digits, size);
      ChunksSizes(digits, size);
      Some(Chunks(digits, size))
  }

  /** Cutting loses and reorders nothing: the layers concatenate to the digits. */
  lemma {:induction false} ChunksConcat(xs: seq<int>, size: nat)
    requires size > 0
    ensures Concat(Chunks(xs, size)) == xs
    decreases |xs|
  {
    if xs != [] && |xs| > size {
      ChunksConcat(xs[size..], size);
      assert ([xs[..size]] + Chunks(xs[size..], size))[1..] == Chunks(xs[size..], size);
      assert xs == xs[..size] + xs[size..];
    } else if xs != [] {
      assert [xs][1..] == [];
    }
  }

  /** Every layer but the last has exactly `size` digits, and the last between
      1 and `size`. */
  lemma {:induction false} ChunksSizes(xs: seq<int>, size: nat)
    requires size > 0
    ensures forall i :: 0 <= i < |Chunks(xs, size)| - 1 ==> |Chunks(xs, size)[i]| == size
    ensures forall i :: 0 <= i < |Chunks(xs, size)| ==> 0 < |Chunks(xs, size)[i]| <= size
    decreases |xs|
  {
    if xs != [] && |xs| > size {
      var rest := Chunks(xs[size..], size);
      ChunksSizes(xs[size..], size);
      var r := [xs[..size]] + rest;
      forall i | 0 <= i < |r|
        ensures 0 < |r[i]| <= size
        ensures i < |r| - 1 ==> |r[i]| == size
      {
        if i > 0 {
          assert r[i] == rest[i - 1];
        }
      }
    }
  }

  /** The example of the tests: 123456789012 in a 3 x 2 image. */
  lemma GetLayersExample(digits: seq<int>)
    requires digits == [1, 2, 3, 4, 5, 6, 7, 8, 9, 0, 1, 2]
    ensures GetLayers(digits, 3, 2) == Some([[1, 2, 3, 4, 5, 6], [7, 8, 9, 0, 1, 2]])
  {
    assert digits[..6] == [1, 2, 3, 4, 5, 6];
    assert digits[6..] == [7, 8, 9, 0, 1, 2];
    assert Chunks(digits[6..], 6) == [[7, 8, 9, 0, 1, 2]];
    assert Chunks(digits, 6) == [digits[..6]] + Chunks(digits[6..], 6);
    assert [[1, 2, 3, 4, 5, 6]] + [[7, 8, 9, 0, 1, 2]] == [[1, 2, 3, 4, 5, 6], [7, 8, 9, 0, 1, 2]];
  }

  // ---------------------------------------------------------------------------
  // Merging

  /** The inner loop of `merge_layers` at position `i`, from layer `from` on:
      the first layer whose pixel is 0 or 1 gives it, and -1 when there is
      none; reading a layer shorter than `i + 1` raises IndexError (None). */
  function Pixel(layers: seq<seq<int>>, i: nat, from: nat): Option<int>
    decreases |layers| - from
  {
    if from >= |layers| then Some(-1)
    else if i >= |layers[from]| then None
    else if layers[from][i] == 0 || layers[from][i] == 1 then Some(layers[from][i])
    else Pixel(layers, i, from + 1)
  }

  /** The merged pixels of positions `0..n-1`. */
  function MergeUpTo(layers: seq<seq<int>>, n: nat): Option<seq<int>>
  {
    if n == 0 then Some([])
    else match (MergeUpTo(layers, n - 1), Pixel(layers, n - 1, 0))
      case (Some(ps), Some(p)) => Some(ps + [p])
      case _ => None
  }

  /** `merge_layers`: `layers[0]` raises IndexError when there is no layer. */
  function Merge(layers: seq<seq<int>>): Option<seq<int>>
  {
    if layers == [] then None else MergeUpTo(layers, |layers[0]|)
  }

  predicate AllAtLeast(layers: seq<seq<int>>, n: nat)
  {
    forall k :: 0 <= k < |layers| ==> |layers[k]| >= n
  }

  /** The pixel at a position every layer has is never missing; it is the value
      of the first layer holding 0 or 1 there, and -1 when none does. */
  lemma {:induction false} PixelIsFrontmost(layers: seq<seq<int>>, i: nat, from: nat)
    requires AllAtLeast(layers, i + 1)
    ensures Pixel(layers, i, from).Some?
    ensures var p := Pixel(layers, i, from).value;
            && (p == -1 <==> forall k :: from <= k < |layers| ==> layers[k][i] != 0 && layers[k][i] != 1)
            && (p != -1 ==> exists k :: from <= k < |layers| && p == layers[k][i] &&
                                        (p == 0 || p == 1) &&
                                        forall j :: from <= j < k ==> layers[j][i] != 0 && layers[j][i] != 1)
    decreases |layers| - from
  {
    if from < |layers| && layers[from][i] != 0 && layers[from][i] != 1 {
      PixelIsFrontmost(layers, i, from + 1);
    }
  }

  /** When every layer is as long as the first, merging succeeds, keeps the
      first layer's length, and each merged pixel is the frontmost 0 or 1 at
      that position, else -1; so every merged pixel is -1, 0 or 1. */
  lemma {:induction false} MergeUpToSpec(layers: seq<seq<int>>, n: nat)
    requires AllAtLeast(layers, n)
    ensures MergeUpTo(layers, n).Some?
    ensures var ps := MergeUpTo(layers, n).value;
            |ps| == n && forall i :: 0 <= i < n ==> Pixel(layers, i, 0) == Some(ps[i]) && -1 <= ps[i] <= 1
  {
    if n > 0 {
      MergeUpToSpec(layers, n - 1);
      PixelIsFrontmost(layers, n - 1, 0);
    }
  }

  /** A position whose pixel is missing makes every longer merge fail. */
  lemma {:induction false} MergeStaysMissing(layers: seq<seq<int>>, i: nat, n: nat)
    requires i < n && Pixel(layers, i, 0).None?
    ensures MergeUpTo(layers, n).None?
  {
    if n - 1 > i {
      MergeStaysMissing(layers, i, n - 1);
    }
  }

  /** The example of the tests: four 2 x 2 layers merge to 0, 1, 1, 0. */
  lemma MergeExample(layers: seq<seq<int>>)
    requires layers == [[0, 2, 2, 2], [1, 1, 2, 2], [2, 2, 1, 2], [0, 0, 0, 0]]
    ensures Merge(layers) == Some([0, 1, 1, 0])
  {
    assert Pixel(layers, 0, 0) == Some(0);
    assert Pixel(layers, 1, 1) == Some(1);
    assert Pixel(layers, 1, 0) == Some(1);
    assert Pixel(layers, 2, 2) == Some(1);
    assert Pixel(layers, 2, 1) == Some(1);
    assert Pixel(layers, 2, 0) == Some(1);
    assert Pixel(layers, 3, 3) == Some(0);
    assert Pixel(layers, 3, 2) == Some(0);
    assert Pixel(layers, 3, 1) == Some(0);
    assert Pixel(layers, 3, 0) == Some(0);
    assert MergeUpTo(layers, 0) == Some([]);
    assert [] + [0] == [0];
    assert MergeUpTo(layers, 1) == Some([0]);
    assert [0] + [1] == [0, 1];
    assert MergeUpTo(layers, 2) == Some([0, 1]);
    assert [0, 1] + [1] == [0, 1, 1];
    assert MergeUpTo(layers, 3) == Some([0, 1, 1]);
    assert [0, 1, 1] + [0] == [0, 1, 1, 0];
  }

  /** `merge_layers` as written: for each position, a search over the layers
      that breaks at the first 0 or 1 and otherwise appends -1. */
  method MergeLayers(layers: seq<seq<int>>) returns (r: Option<seq<int>>)
    ensures r == Merge(layers)
  {
    if layers == [] {
      return None;
    }
    var merged := [];
    for i := 0 to |layers[0]|
      invariant MergeUpTo(layers, i) == Some(merged)
    {
      var pixel := -1;
      var k := 0;
      while k < |layers|
        invariant k <= |layers|
        invariant Pixel(layers, i, 0) == if pixel == -1 then Pixel(layers, i, k) else Some(pixel)
        decreases |layers| - k
      {
        if i >= |layers[k]| {
          MergeStaysMissing(layers, i, |layers[0]|);
          return None;
        }
        if layers[k][i] == 0 || layers[k][i] == 1 {
          pixel := layers[k][i];
          break;
        }
        k := k + 1;
      }
      merged := merged + [pixel];
    }
    r := Some(merged);
  }

  // ---------------------------------------------------------------------------
  // The checksum of part 1

  function Zeros(layer: seq<int>): nat
  {
    Count(layer, 0)
  }

  /** The first layer with the fewest zeros. */
  function FewestZeros(layers: seq<seq<int>>): (j: nat)
    requires layers != []
    ensures j < |layers|
    ensures forall k :: 0 <= k < j ==> Zeros(layers[k]) > Zeros(layers[j])
    ensures forall k :: 0 <= k < |layers| ==> Zeros(layers[k]) >= Zeros(layers[j])
  {
    if |layers| == 1 then 0
    else
      var j := FewestZeros(layers[..|layers| - 1]);
      assert forall k :: 0 <= k < |layers| - 1 ==> layers[..|layers| - 1][k] == layers[k];
      if Zeros(layers[|layers| - 1]) < Zeros(layers[j]) then |layers| - 1 else j
  }

  /** The initial `nb0` of `main`: 2 ** 64. */
  const ZerosBound: nat := 0x1_0000_0000_0000_0000

  /** The selection loop of `main`: the product of the counts of 1 and 2 in the
      first layer with strictly fewest zeros; 0 when there is no layer or every
      layer has at least 2 ** 64 zeros. */
  method Checksum(layers: seq<seq<int>>) returns (p1: int)
    ensures layers == [] || Zeros(layers[FewestZeros(layers)]) >= ZerosBound ==> p1 == 0
    ensures layers != [] && Zeros(layers[FewestZeros(layers)]) < ZerosBound ==>
              var l := layers[FewestZeros(layers)];
              p1 == Count(l, 1) * Count(l, 2)
  {
    var nb0: int := ZerosBound;
    p1 := 0;
    for i := 0 to |layers|
      invariant i == 0 ==> nb0 == ZerosBound && p1 == 0
      invariant i > 0 ==> var j := FewestZeros(layers[..i]);
                          if Zeros(layers[j]) < ZerosBound
                          then nb0 == Zeros(layers[j]) && p1 == Count(layers[j], 1) * Count(layers[j], 2)
                          else nb0 == ZerosBound && p1 == 0
    {
      assert layers[..i + 1][..i] == layers[..i];
      assert forall k :: 0 <= k < i ==> layers[..i][k] == layers[k];
      var c := Count(layers[i], 0);
      if c < nb0 {
        p1 := Count(layers[i], 1) * Count(layers[i], 2);
        nb0 := c;
      }
    }
    assert layers[..|layers|] == layers;
  }
}
