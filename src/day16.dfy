/** Day 16 (aoc/d16.py): the flawed frequency transmission. One phase of `fft`
    replaces each digit k of the signal by the last digit of the absolute
    value of a weighted sum of the whole signal, the weight of position j being
    taken from the repeating pattern 0, 1, 0, -1, each element repeated k + 1
    times and the very first one skipped. `fft2` is the shortcut for the second
    half of a signal, where those weights are 1 from position k on and 0
    before, so each digit is the last digit of a suffix sum. */
module Day16 {
  import opened Lists

  function Abs(x: int): nat
  {
    if x < 0 then -x else x
  }

  /** The base pattern 0, 1, 0, -1, repeated. */
  function Pattern(idx: int): int
  {
    var r := idx % 4;
    if r == 1 then 1 else if r == 3 then -1 else 0
  }

  /** The weight of input position `j` in output digit `k`. */
  function Coef(k: nat, j: nat): int
  {
    Pattern((j + 1) / (k + 1))
  }

  /** The weighted sum of the first `n` digits for output digit `k`. */
  function Dot(signal: seq<int>, k: nat, n: nat): int
    requires n <= |signal|
  {
    if n == 0 then 0 else Dot(signal, k, n - 1) + signal[n - 1] * Coef(k, n - 1)
  }

  /** One phase: every output digit from the whole input, a digit 0..9. */
  function Phase(signal: seq<int>): (r: seq<int>)
    ensures |r| == |signal|
    ensures forall k :: 0 <= k < |r| ==> 0 <= r[k] <= 9
  {
    seq(|signal|, k requires 0 <= k < |signal| => Abs(Dot(signal, k, |signal|)) % 10)
  }

  function Phases(signal: seq<int>, passes: nat): seq<int>
    decreases passes
  {
    if passes == 0 then signal else Phases(Phase(signal), passes - 1)
  }

  /** One phase of the shortcut: each digit is the last digit of the sum from
      its position to the end. */
  function SuffixPhase(signal: seq<int>): seq<int>
  {
    seq(|signal|, i requires 0 <= i < |signal| => Abs(Sum(signal[i..])) % 10)
  }

  function SuffixPhases(signal: seq<int>, passes: nat): seq<int>
    decreases passes
  {
    if passes == 0 then signal else SuffixPhases(SuffixPhase(signal), passes - 1)
  }

  // ---------------------------------------------------------------------------
  // Properties of the phases

  /** Each pass keeps the length and leaves only digits 0..9; no pass at all
      returns the input. */
  lemma {:induction false} PhasesShape(signal: seq<int>, passes: nat)
    ensures |Phases(signal, passes)| == |signal|
    ensures passes > 0 ==> forall i :: 0 <= i < |signal| ==> 0 <= Phases(signal, passes)[i] <= 9
    ensures passes == 0 ==> Phases(signal, passes) == signal
    decreases passes
  {
    if passes > 0 {
      PhasesShape(Phase(signal), passes - 1);
    }
  }

  /** The same for the shortcut. */
  lemma {:induction false} SuffixPhasesShape(signal: seq<int>, passes: nat)
    ensures |SuffixPhases(signal, passes)| == |signal|
    ensures passes > 0 ==> forall i :: 0 <= i < |signal| ==> 0 <= SuffixPhases(signal, passes)[i] <= 9
    decreases passes
  {
    if passes > 0 {
      SuffixPhasesShape(SuffixPhase(signal), passes - 1);
    }
  }

  /** Euclidean division by `p` absorbs whole multiples of `p`. */
  lemma DivAddMultiple(m: nat, r: nat, p: nat)
    requires p > 0
    ensures (m * p + r) / p == m + r / p
  {
    var q, s := r / p, r % p;
    var x := m * p + r;
    assert x == (m + q) * p + s;
    var d := x / p - (m + q);
    assert p * d == s - x % p;
  }

  /** A quotient below the divisor is 0. */
  lemma SmallDiv(x: nat, p: nat)
    requires x < p
    ensures x / p == 0
  {
  }

  /** The weight of the positions that follow the end of a run of `m` blocks of
      `p = k + 1` (with `m % 4 == 1`, so the next block has weight 1): the
      offsets `r` with `r / p` equal to 0, 1, 2 and 3 have weights 1, 0, -1, 0;
      the last position before them closes `m` blocks. */
  lemma CoefInBlock(k: nat, m: nat, r: nat, c: nat)
    requires m % 4 == 1
    requires c < 4 && c * (k + 1) <= r < (c + 1) * (k + 1)
    ensures Coef(k, m * (k + 1) - 1 + r) == if c == 0 then 1 else if c == 2 then -1 else 0
  {
    var p := k + 1;
    DivAddMultiple(m, r, p);
    DivAddMultiple(c, r - c * p, p);
    SmallDiv(r - c * p, p);
    assert r / p == c;
    assert (m * p - 1 + r + 1) / p == m + c;
  }

  lemma CoefBeforeK(k: nat, j: nat)
    requires j < k
    ensures Coef(k, j) == 0
  {
    SmallDiv(j + 1, k + 1);
  }

  function Min(a: int, b: int): int
  {
    if a < b then a else b
  }

  /** The plain sum of the digits at positions `a..b-1`. */
  function RangeSum(signal: seq<int>, a: nat, b: nat): int
    requires a <= b <= |signal|
    decreases b - a
  {
    if a == b then 0 else RangeSum(signal, a, b - 1) + signal[b - 1]
  }

  /** `sum(signal[a:b])`, whose bounds Python clamps to the length. */
  lemma {:induction false} SliceSum(signal: seq<int>, a: nat, b: nat)
    requires a <= b
    ensures Min(a, |signal|) <= Min(b, |signal|)
    ensures Sum(Slice(signal, a, b)) == RangeSum(signal, Min(a, |signal|), Min(b, |signal|))
    decreases b - a
  {
    var n := |signal|;
    if a == b || a >= n {
      assert Slice(signal, a, b) == [];
    } else if b > n {
      SliceSum(signal, a, n);
      assert Slice(signal, a, b) == Slice(signal, a, n);
    } else {
      SliceSum(signal, a, b - 1);
      assert Slice(signal, a, b) == Slice(signal, a, b - 1) + [signal[b - 1]];
      SumSnoc(Slice(signal, a, b - 1), signal[b - 1]);
    }
  }

  /** Over a run of positions that all have weight `c`, the weighted sum grows
      by `c` times the plain sum of the run. */
  lemma {:induction false} ConstantBlock(signal: seq<int>, k: nat, a: nat, b: nat, c: int)
    requires a <= b <= |signal|
    requires forall j :: a <= j < b ==> Coef(k, j) == c
    ensures Dot(signal, k, b) == Dot(signal, k, a) + c * RangeSum(signal, a, b)
    decreases b - a
  {
    if a < b {
      ConstantBlock(signal, k, a, b - 1, c);
      var x := signal[b - 1];
      assert Coef(k, b - 1) == c;
      assert c * (RangeSum(signal, a, b - 1) + x) == c * RangeSum(signal, a, b - 1) + c * x;
    }
  }

  /** The run of positions `0..k-1` has weight 0. */
  lemma ZeroBeforeK(signal: seq<int>, k: nat)
    ensures Dot(signal, k, Min(k, |signal|)) == 0
  {
    forall j | 0 <= j < Min(k, |signal|)
      ensures Coef(k, j) == 0
    {
      CoefBeforeK(k, j);
    }
    ConstantBlock(signal, k, 0, Min(k, |signal|), 0);
  }

  /** Block `c` (0 to 3) after position `i = m * p - 1`, the one starting at
      `lo = i + c * p`, has a single weight. */
  lemma BlockWeight(k: nat, m: nat, i: nat, c: nat, lo: nat)
    requires m % 4 == 1 && c < 4
    requires i == m * (k + 1) - 1 && lo == i + c * (k + 1)
    ensures forall j :: lo <= j < lo + k + 1 ==> Coef(k, j) == if c == 0 then 1 else if c == 2 then -1 else 0
  {
    forall j | lo <= j < lo + k + 1
      ensures Coef(k, j) == if c == 0 then 1 else if c == 2 then -1 else 0
    {
      assert j == i + (j - i);
      CoefInBlock(k, m, j - i, c);
    }
  }

  /** Block `c` after position `i = m * p - 1`, from `lo` to `hi`, changes the
      weighted sum by its weight times the sum of its (clamped) digits. */
  lemma BlockStep(signal: seq<int>, k: nat, m: nat, i: nat, c: nat, lo: nat, hi: nat)
    requires m % 4 == 1 && c < 4
    requires i == m * (k + 1) - 1 && lo == i + c * (k + 1) && hi == lo + k + 1
    ensures Dot(signal, k, Min(hi, |signal|)) - Dot(signal, k, Min(lo, |signal|)) ==
              if c == 0 then Sum(Slice(signal, lo, hi)) else if c == 2 then -Sum(Slice(signal, lo, hi)) else 0
  {
    var w := if c == 0 then 1 else if c == 2 then -1 else 0;
    BlockWeight(k, m, i, c, lo);
    SliceSum(signal, lo, hi);
    ConstantBlock(signal, k, Min(lo, |signal|), Min(hi, |signal|), w);
  }

  /** Blocks `c` and `c + 1` (`c` being 0 or 2) after position `i = m * p - 1`:
      the first has weight 1 or -1, the second weight 0. */
  lemma TwoBlocks(signal: seq<int>, k: nat, m: nat, i: nat, c: nat, lo: nat)
    requires m % 4 == 1 && (c == 0 || c == 2)
    requires i == m * (k + 1) - 1 && lo == i + c * (k + 1)
    ensures var p := k + 1;
            Dot(signal, k, Min(lo + 2 * p, |signal|)) - Dot(signal, k, Min(lo, |signal|)) ==
              if c == 0 then Sum(Slice(signal, lo, lo + p)) else -Sum(Slice(signal, lo, lo + p))
  {
    var p := k + 1;
    BlockStep(signal, k, m, i, c, lo, lo + p);
    assert lo + p == i + (c + 1) * p by {
      assert (c + 1) * p == c * p + p;
    }
    BlockStep(signal, k, m, i, c + 1, lo + p, lo + 2 * p);
  }

  /** One pass of the `while` loop of `fft`, from position `i = m * p - 1`
      (`p = k + 1`, `m % 4 == 1`): the next four blocks have weights 1, 0, -1
      and 0, so the loop adds the first and subtracts the third. */
  lemma FourBlocks(signal: seq<int>, k: nat, m: nat, i: nat)
    requires m % 4 == 1 && i == m * (k + 1) - 1
    ensures var p := k + 1;
            Dot(signal, k, Min(i + 4 * p, |signal|)) ==
              Dot(signal, k, Min(i, |signal|)) + Sum(Slice(signal, i, i + p)) - Sum(Slice(signal, i + 2 * p, i + 3 * p))
  {
    var p := k + 1;
    TwoBlocks(signal, k, m, i, 0, i);
    TwoBlocks(signal, k, m, i, 2, i + 2 * p);
  }

  /** From position `k` to `2k`, output `k`'s weight is 1. */
  lemma CoefSecondHalf(k: nat, j: nat)
    requires k <= j <= 2 * k
    ensures Coef(k, j) == 1
  {
    DivAddMultiple(1, j - k, k + 1);
    SmallDiv(j - k, k + 1);
    assert (j + 1) / (k + 1) == 1;
  }

  /** In the second half of the signal the weighted sum of output `k` is the
      sum from `k` to the end. */
  lemma SecondHalfDot(signal: seq<int>, k: nat)
    requires k < |signal| <= 2 * k + 1
    ensures Dot(signal, k, |signal|) == Sum(signal[k..])
  {
    ZeroBeforeK(signal, k);
    forall j | k <= j < |signal|
      ensures Coef(k, j) == 1
    {
      CoefSecondHalf(k, j);
    }
    ConstantBlock(signal, k, k, |signal|, 1);
    SliceSum(signal, k, |signal|);
    assert Slice(signal, k, |signal|) == signal[k..];
  }

  /** In the second half of the signal (where the first block of weight 1
      already reaches the end) the weighted sum of `fft` is the suffix sum of
      `fft2`: the shortcut computes the same digits there. */
  lemma SecondHalfIsSuffixSum(signal: seq<int>, k: nat)
    requires k < |signal| <= 2 * k + 1
    ensures Dot(signal, k, |signal|) == Sum(signal[k..])
    ensures Phase(signal)[k] == SuffixPhase(signal)[k]
  {
    SecondHalfDot(signal, k);
    assert Phase(signal)[k] == Abs(Dot(signal, k, |signal|)) % 10;
    assert SuffixPhase(signal)[k] == Abs(Sum(signal[k..])) % 10;
  }

  /** Digits 0 and 1 of the first phase of the tests' example. */
  lemma FirstPhaseExampleFront01(signal: seq<int>)
    requires signal == [1, 2, 3, 4, 5, 6, 7, 8]
    ensures Phase(signal)[0] == 4 && Phase(signal)[1] == 8
  {
    assert Phase(signal)[0] == 4 by {
      assert Dot([1, 2, 3, 4, 5, 6, 7, 8], 0, 8) == -4;
    }
    assert Phase(signal)[1] == 8 by {
      assert Dot([1, 2, 3, 4, 5, 6, 7, 8], 1, 8) == -8;
    }
  }

  /** Digits 2 and 3 of the first phase of the tests' example. */
  lemma FirstPhaseExampleFront23(signal: seq<int>)
    requires signal == [1, 2, 3, 4, 5, 6, 7, 8]
    ensures Phase(signal)[2] == 2 && Phase(signal)[3] == 2
  {
    assert Phase(signal)[2] == 2 by {
      assert Dot([1, 2, 3, 4, 5, 6, 7, 8], 2, 8) == 12;
    }
    assert Phase(signal)[3] == 2 by {
      assert Dot([1, 2, 3, 4, 5, 6, 7, 8], 3, 8) == 22;
    }
  }

  /** The first phase of the tests' example, 12345678 to 48226158: the first four digits by their weighted sums. */
  lemma FirstPhaseExampleFront(signal: seq<int>)
    requires signal == [1, 2, 3, 4, 5, 6, 7, 8]
    ensures Phase(signal)[0] == 4 && Phase(signal)[1] == 8 && Phase(signal)[2] == 2 && Phase(signal)[3] == 2
  {
    FirstPhaseExampleFront01(signal);
    FirstPhaseExampleFront23(signal);
  }

  /** The first phase of the tests' example, 12345678 to 48226158: the last four digits by their suffix sums. */
  lemma FirstPhaseExampleBack(signal: seq<int>)
    requires signal == [1, 2, 3, 4, 5, 6, 7, 8]
    ensures Phase(signal)[4] == 6 && Phase(signal)[5] == 1 && Phase(signal)[6] == 5 && Phase(signal)[7] == 8
  {
    SecondHalfIsSuffixSum(signal, 4);
    assert signal[4..] == [5, 6, 7, 8];
    SecondHalfIsSuffixSum(signal, 5);
    assert signal[5..] == [6, 7, 8];
    SecondHalfIsSuffixSum(signal, 6);
    assert signal[6..] == [7, 8];
    SecondHalfIsSuffixSum(signal, 7);
    assert signal[7..] == [8];
  }

  lemma FirstPhaseExample(signal: seq<int>)
    requires signal == [1, 2, 3, 4, 5, 6, 7, 8]
    ensures Phase(signal) == [4, 8, 2, 2, 6, 1, 5, 8]
  {
    FirstPhaseExampleFront(signal);
    FirstPhaseExampleBack(signal);
  }

  // ---------------------------------------------------------------------------
  // The functions as written

  /** The invariant of the loop of `fft` for output `k`: `i` closes `m`
      blocks of `k + 1` positions (`m % 4 == 1`), and `res` is the weighted sum
      of the positions before `i`. */
  ghost predicate DigitInv(signal: seq<int>, k: nat, m: nat, i: nat, res: int)
  {
    m % 4 == 1 && i == m * (k + 1) - 1 && res == Dot(signal, k, Min(i, |signal|))
  }

  /** One pass of that loop keeps its invariant. */
  lemma DigitStep(signal: seq<int>, k: nat, p: nat, m: nat, i: nat, res: int)
    requires p == k + 1 && DigitInv(signal, k, m, i, res)
    ensures DigitInv(signal, k, m + 4, i + p * 2 + p * 2,
                     res + Sum(Slice(signal, i, i + p)) - Sum(Slice(signal, i + p * 2, i + p * 2 + p)))
  {
    FourBlocks(signal, k, m, i);
    assert (m + 4) * (k + 1) == m * (k + 1) + 4 * (k + 1);
  }

  /** One output digit of `fft`: the `while` loop over blocks of `psize`. */
  method Digit(signal: seq<int>, outIdx: nat) returns (d: int)
    requires outIdx < |signal|
    ensures d == Abs(Dot(signal, outIdx, |signal|)) % 10
  {
    var siglen := |signal|;
    var res := 0;
    var i := outIdx;
    var psize := outIdx + 1;
    ghost var m: nat := 1;
    ZeroBeforeK(signal, outIdx);
    while i < siglen
      invariant DigitInv(signal, outIdx, m, i, res)
      decreases siglen - i
    {
      DigitStep(signal, outIdx, psize, m, i, res);
      res := res + Sum(Slice(signal, i, i + psize));
      i := i + psize * 2;
      res := res - Sum(Slice(signal, i, i + psize));
      i := i + psize * 2;
      m := m + 4;
    }
    assert Min(i, siglen) == siglen;
    d := Abs(res) % 10;
  }

  /** `fft`: `passes` phases, each built by appending its digits in order. */
  method Fft(signal: seq<int>, passes: nat) returns (r: seq<int>)
    ensures r == Phases(signal, passes)
  {
    var siglen := |signal|;
    r := signal;
    for pass := 0 to passes
      invariant |r| == siglen
      invariant Phases(r, passes - pass) == Phases(signal, passes)
    {
      var output := [];
      for outIdx := 0 to siglen
        invariant |output| == outIdx
        invariant forall k :: 0 <= k < outIdx ==> output[k] == Phase(r)[k]
      {
        var d := Digit(r, outIdx);
        output := output + [d];
      }
      assert output == Phase(r);
      assert Phases(r, passes - pass) == Phases(output, passes - pass - 1);
      r := output;
    }
  }

  /** `fft2`: `passes` shortcut phases, each filled from the last digit back
      while a running suffix sum is kept. */
  method Fft2(signal: seq<int>, passes: nat) returns (r: seq<int>)
    ensures r == SuffixPhases(signal, passes)
  {
    var siglen := |signal|;
    r := signal;
    for pass := 0 to passes
      invariant |r| == siglen
      invariant SuffixPhases(r, passes - pass) == SuffixPhases(signal, passes)
    {
      var output := seq(siglen, _ => 0);
      var res := 0;
      for outIdx := 0 to siglen
        invariant |output| == siglen
        invariant res == Sum(r[siglen - outIdx..])
        invariant forall j :: siglen - outIdx <= j < siglen ==> output[j] == SuffixPhase(r)[j]
      {
        var i := siglen - outIdx - 1;
        assert r[i..] == [r[i]] + r[i + 1..];
        res := res + r[i];
        output := output[i := Abs(res) % 10];
      }
      assert r[0..] == r;
      assert output == SuffixPhase(r);
      assert SuffixPhases(r, passes - pass) == SuffixPhases(output, passes - pass - 1);
      r := output;
    }
  }
}
