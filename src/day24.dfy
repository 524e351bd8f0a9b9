/** Day 24 (aoc/d24.py): a 5 x 5 grid of bugs kept as the low 25 bits of an
    integer, bit `5 * y + x` standing for the cell in row `y` and column `x`.
    Each minute a bug survives when exactly one orthogonal neighbour holds a
    bug, and an empty cell is infested when one or two do. The bit operations
    of the source (`1 << i`, `>>`, `& 1`, `|=`) are written out on natural
    numbers. */
module Day24 {
  // ---------------------------------------------------------------------------
  // Bits of a natural number

  function Pow2(n: nat): (r: nat)
    ensures r > 0
  {
    if n == 0 then 1 else 2 * Pow2(n - 1)
  }

  /** `s >> i`. */
  function Shr(s: nat, i: nat): nat
  {
    if i == 0 then s else Shr(s / 2, i - 1)
  }

  /** `(s >> i) & 1`. */
  function Bit(s: nat, i: nat): nat
  {
    Shr(s, i) % 2
  }

  /** `a | b`, one bit at a time from the lowest. */
  function BitOr(a: nat, b: nat): nat
    decreases a + b
  {
    if a == 0 then b
    else if b == 0 then a
    else (if a % 2 == 1 || b % 2 == 1 then 1 else 0) + 2 * BitOr(a / 2, b / 2)
  }

  /** The integer whose bit `i` is set exactly when `bs[i]` holds. */
  function Mask(bs: seq<bool>): nat
  {
    if bs == [] then 0
    else Mask(bs[..|bs| - 1]) + if bs[|bs| - 1] then Pow2(|bs| - 1) else 0
  }

  /** Setting a bit above every set bit is an addition. */
  lemma {:induction false} OrHighBit(a: nat, i: nat)
    requires a < Pow2(i)
    ensures BitOr(a, Pow2(i)) == a + Pow2(i)
  {
    if i > 0 && a > 0 {
      OrHighBit(a / 2, i - 1);
    }
  }

  /** A number below `2 ** n` has no bit at `n` or above. */
  lemma {:induction false} HighBitsClear(x: nat, n: nat, i: nat)
    requires x < Pow2(n) && n <= i
    ensures Bit(x, i) == 0
  {
    if i > 0 {
      if n > 0 {
        HighBitsClear(x / 2, n - 1, i - 1);
      } else {
        HighBitsClear(x / 2, 0, i - 1);
      }
    }
  }

  /** Adding `2 ** n` to a number below it sets bit `n` and keeps the others. */
  lemma {:induction false} AddHighBit(x: nat, n: nat, i: nat)
    requires x < Pow2(n)
    ensures Bit(x + Pow2(n), i) == if i == n then 1 else Bit(x, i)
  {
    if i > 0 && n > 0 {
      assert (x + Pow2(n)) / 2 == x / 2 + Pow2(n - 1);
      AddHighBit(x / 2, n - 1, i - 1);
    } else if i > 0 {
      assert (x + Pow2(n)) / 2 == 0;
      assert x / 2 == 0;
      HighBitsClear(0, 0, i - 1);
    }
  }

  /** Bit `i` of a mask is set exactly when `bs[i]` holds, and the mask has no
      bit at `|bs|` or above. */
  lemma {:induction false} MaskBits(bs: seq<bool>, i: nat)
    ensures Mask(bs) < Pow2(|bs|)
    ensures Bit(Mask(bs), i) == if i < |bs| && bs[i] then 1 else 0
  {
    if bs == [] {
      HighBitsClear(0, 0, i);
    } else {
      var init := bs[..|bs| - 1];
      var n := |bs| - 1;
      MaskBits(init, i);
      if bs[n] {
        AddHighBit(Mask(init), n, i);
      } else if i == n {
        HighBitsClear(Mask(init), n, i);
      }
      if i < n {
        assert init[i] == bs[i];
      }
    }
  }

  /** Extending the flags by one flag adds that flag's bit to the mask. */
  lemma MaskOfPrefix(bs: seq<bool>, i: nat)
    requires i < |bs|
    ensures Mask(bs[..i + 1]) == Mask(bs[..i]) + if bs[i] then Pow2(i) else 0
  {
    assert bs[..i + 1][..i] == bs[..i];
  }

  // ---------------------------------------------------------------------------
  // Parsing

  /** `replace("\n", "")`: every character but the newlines, in order. */
  function WithoutNewlines(s: string): (r: string)
    ensures forall i :: 0 <= i < |r| ==> r[i] != '\n'
    ensures |r| <= |s|
    ensures multiset(r) == multiset(s)['\n' := 0]
    ensures '\n' !in s ==> r == s
  {
    if s == [] then []
    else
      assert s == [s[0]] + s[1..];
      (if s[0] == '\n' then [] else [s[0]]) + WithoutNewlines(s[1..])
  }

  /** Dropping the newlines of two pieces and joining them is dropping the
      newlines of the joined text: the kept characters stay in their order. */
  lemma {:induction false} WithoutNewlinesAppend(a: string, b: string)
    ensures WithoutNewlines(a + b) == WithoutNewlines(a) + WithoutNewlines(b)
  {
    if a != [] {
      var head := if a[0] == '\n' then [] else [a[0]];
      assert (a + b)[0] == a[0] && (a + b)[1..] == a[1..] + b;
      WithoutNewlinesAppend(a[1..], b);
      calc {
        WithoutNewlines(a + b);
        head + WithoutNewlines(a[1..] + b);
        head + (WithoutNewlines(a[1..]) + WithoutNewlines(b));
        (head + WithoutNewlines(a[1..])) + WithoutNewlines(b);
      }
    } else {
      assert a + b == b;
    }
  }

  /** What `parse_input` computes: bit `i` for character `i` of the input without
      its newlines, set when that character is '#'. */
  function Parsed(s: string): nat
  {
    var cs := WithoutNewlines(s);
    Mask(seq(|cs|, i requires 0 <= i < |cs| => cs[i] == '#'))
  }

  /** `parse_input` sets bit `i` exactly for the '#' at position `i` once the
      newlines are gone. */
  lemma ParsedBits(s: string, i: nat)
    ensures var cs := WithoutNewlines(s);
            Bit(Parsed(s), i) == 1 <==> i < |cs| && cs[i] == '#'
  {
    var cs := WithoutNewlines(s);
    MaskBits(seq(|cs|, i requires 0 <= i < |cs| => cs[i] == '#'), i);
  }

  /** `parse_input` as written: the loop that ors in `1 << i`. */
  method ParseInput(input: string) returns (val: nat)
    ensures val == Parsed(input)
  {
    val := 0;
    var s := WithoutNewlines(input);
    ghost var flags := seq(|s|, i requires 0 <= i < |s| => s[i] == '#');
    for i := 0 to |s|
      invariant val == Mask(flags[..i])
    {
      MaskOfPrefix(flags, i);
      if s[i] == '#' {
        MaskBits(flags[..i], 0);
        OrHighBit(val, i);
        val := BitOr(val, Pow2(i));
      }
    }
    assert flags[..|s|] == flags;
  }

  // ---------------------------------------------------------------------------
  // One minute

  /** The four directions in the order `tick` visits them. */
  const Directions: seq<(int, int)> := [(0, -1), (0, 1), (-1, 0), (1, 0)]

  /** The bugs among the first `d` directions around cell `i`, skipping
      directions that leave the grid. */
  function NeighboursUpTo(state: nat, i: nat, d: nat): nat
    requires d <= 4
  {
    if d == 0 then 0
    else
      var (y, x) := (i / 5, i % 5);
      var nx := x + Directions[d - 1].0;
      var ny := y + Directions[d - 1].1;
      NeighboursUpTo(state, i, d - 1) + if 0 <= nx < 5 && 0 <= ny < 5 then Bit(state, ny * 5 + nx) else 0
  }

  function Neighbours(state: nat, i: nat): nat
  {
    NeighboursUpTo(state, i, 4)
  }

  /** The rule of `tick` for cell `i`. */
  predicate Alive(state: nat, i: nat)
  {
    var c := Bit(state, i);
    var n := Neighbours(state, i);
    (c == 1 && n == 1) || (c == 0 && 0 < n < 3)
  }

  /** The bits of the next state for cells `0..n-1`. */
  function TickUpTo(state: nat, n: nat): nat
  {
    if n == 0 then 0 else TickUpTo(state, n - 1) + if Alive(state, n - 1) then Pow2(n - 1) else 0
  }

  /** What `tick` computes: bit `i` of the next state for each cell. Exactly
      the cells the rule keeps or infests are set, and nothing above the 25
      cells of the grid. */
  function Tick(state: nat): (r: nat)
    ensures r < Pow2(25)
    ensures forall i: nat :: Bit(r, i) == 1 <==> i < 25 && Alive(state, i)
  {
    AliveBits(state, 25);
    TickUpTo(state, 25)
  }

  lemma AliveBits(state: nat, n: nat)
    ensures TickUpTo(state, n) < Pow2(n)
    ensures forall i: nat :: Bit(TickUpTo(state, n), i) == 1 <==> i < n && Alive(state, i)
  {
    TickUpToIsMask(state, n);
    forall i: nat
      ensures Bit(TickUpTo(state, n), i) == 1 <==> i < n && Alive(state, i)
    {
      MaskBits(AliveFlags(state, n), i);
    }
  }

  function AliveFlags(state: nat, n: nat): seq<bool>
  {
    seq(n, i requires 0 <= i < n => Alive(state, i))
  }

  /** The next state is the mask of the cells the rule keeps or infests. */
  lemma {:induction false} TickUpToIsMask(state: nat, n: nat)
    ensures TickUpTo(state, n) == Mask(AliveFlags(state, n))
  {
    if n > 0 {
      TickUpToIsMask(state, n - 1);
      assert AliveFlags(state, n)[..n - 1] == AliveFlags(state, n - 1);
    }
  }

  /** Whether two cells of the grid share a side. */
  predicate Adjacent(i: nat, j: nat)
  {
    var dy := i / 5 - j / 5;
    var dx := i % 5 - j % 5;
    (dy == 0 && (dx == 1 || dx == -1)) || (dx == 0 && (dy == 1 || dy == -1))
  }

  /** The neighbours are exactly the cell above, below, left and right that are
      inside the grid: the left neighbour of a cell in the first column and the
      right neighbour of a cell in the last are not counted, so rows do not
      wrap around. */
  lemma NeighboursExplicit(state: nat, i: nat)
    requires i < 25
    ensures Neighbours(state, i) ==
              (if i >= 5 then Bit(state, i - 5) else 0) + (if i < 20 then Bit(state, i + 5) else 0) +
              (if i % 5 > 0 then Bit(state, i - 1) else 0) + (if i % 5 < 4 then Bit(state, i + 1) else 0)
  {
    var y, x := i / 5, i % 5;
    assert i == 5 * y + x;
    assert NeighboursUpTo(state, i, 1) == if i >= 5 then Bit(state, i - 5) else 0 by {
      assert y >= 1 ==> (y - 1) * 5 + x == i - 5;
    }
    assert NeighboursUpTo(state, i, 2) == NeighboursUpTo(state, i, 1) + if i < 20 then Bit(state, i + 5) else 0 by {
      assert y < 4 ==> (y + 1) * 5 + x == i + 5;
    }
    assert NeighboursUpTo(state, i, 3) == NeighboursUpTo(state, i, 2) + if x > 0 then Bit(state, i - 1) else 0 by {
      assert x > 0 ==> y * 5 + (x - 1) == i - 1;
    }
    assert NeighboursUpTo(state, i, 4) == NeighboursUpTo(state, i, 3) + if x < 4 then Bit(state, i + 1) else 0 by {
      assert x < 4 ==> y * 5 + (x + 1) == i + 1;
    }
  }

  /** Those four cells are the cells of the grid that share a side with `i`. */
  lemma NeighbourCells(i: nat, j: nat)
    requires i < 25 && j < 25
    ensures Adjacent(i, j) <==>
              (i >= 5 && j == i - 5) || (i < 20 && j == i + 5) ||
              (i % 5 > 0 && j == i - 1) || (i % 5 < 4 && j == i + 1)
  {
  }

  /** The rule of the puzzle, bit by bit: a bug survives when exactly one
      neighbour is a bug, an empty cell is infested when one or two are, and no
      bit at 25 or above is ever set. */
  lemma TickBits(state: nat, i: nat)
    ensures Tick(state) < Pow2(25)
    ensures Bit(Tick(state), i) == 1 <==>
              i < 25 && ((Bit(state, i) == 1 && Neighbours(state, i) == 1) ||
                         (Bit(state, i) == 0 && (Neighbours(state, i) == 1 || Neighbours(state, i) == 2)))
  {
    TickUpToIsMask(state, 25);
    MaskBits(AliveFlags(state, 25), i);
  }

  /** `tick` reads only bits 0..24 of its input. */
  lemma {:induction false} TickReadsLowBits(s: nat, t: nat, n: nat)
    requires forall j :: 0 <= j < 25 ==> Bit(s, j) == Bit(t, j)
    requires n <= 25
    ensures TickUpTo(s, n) == TickUpTo(t, n)
  {
    if n > 0 {
      TickReadsLowBits(s, t, n - 1);
      NeighboursExplicit(s, n - 1);
      NeighboursExplicit(t, n - 1);
    }
  }

  /** The inner loop of `tick`: the live cells among the four orthogonal
      neighbours of cell `i` that lie inside the grid. */
  method CountNeighbours(state: nat, i: nat) returns (n: nat)
    ensures n == Neighbours(state, i)
  {
    n := 0;
    var y, x := i / 5, i % 5;
    for d := 0 to 4
      invariant n == NeighboursUpTo(state, i, d)
    {
      var (dx, dy) := Directions[d];
      var nx := x + dx;
      var ny := y + dy;
      if 0 <= nx < 5 && 0 <= ny < 5 {
        n := n + Bit(state, ny * 5 + nx);
      }
    }
  }

  /** `tick` as written: for each cell, a loop over the four directions counts
      the bugs, and the new bit is or-ed in. */
  method TickMethod(state: nat) returns (ns: nat)
    ensures ns == Tick(state)
  {
    ns := 0;
    for i := 0 to 25
      invariant ns == TickUpTo(state, i)
    {
      var c := Bit(state, i);
      var n := CountNeighbours(state, i);
      TickStep(state, i, ns);
      if (c == 1 && n == 1) || (c == 0 && 0 < n < 3) {
        ns := BitOr(ns, Pow2(i));
      }
    }
  }

  /** One pass of the outer loop of `tick`: or-ing in bit `i` when cell `i`
      is alive next extends the state computed so far by that cell. */
  lemma TickStep(state: nat, i: nat, ns: nat)
    requires i < 25 && ns == TickUpTo(state, i)
    ensures TickUpTo(state, i + 1) == if Alive(state, i) then BitOr(ns, Pow2(i)) else ns
  {
    if Alive(state, i) {
      TickUpToIsMask(state, i);
      MaskBits(AliveFlags(state, i), 0);
      OrHighBit(ns, i);
    }
  }

  // ---------------------------------------------------------------------------
  // The first repeated state

  /** The state reached from `s` after `k` applications of `step`. */
  function Orbit(step: nat -> nat, s: nat, k: nat): nat
  {
    if k == 0 then s else step(Orbit(step, s, k - 1))
  }

  /** Step `m` is the first whose state was reached before. */
  predicate FirstRepeatOf(step: nat -> nat, s: nat, m: nat)
  {
    (exists j :: 0 <= j < m && Orbit(step, s, j) == Orbit(step, s, m)) &&
    forall a, b :: 0 <= a < b < m ==> Orbit(step, s, a) != Orbit(step, s, b)
  }

  /** The state after `k` minutes. */
  function Iter(s: nat, k: nat): nat
  {
    Orbit(Tick, s, k)
  }

  /** Minute `m` is the first whose layout was seen before. */
  predicate FirstRepeatAt(s: nat, m: nat)
  {
    FirstRepeatOf(Tick, s, m)
  }

  /** There is at most one such step. */
  lemma FirstRepeatUnique(step: nat -> nat, s: nat, m1: nat, m2: nat)
    requires FirstRepeatOf(step, s, m1) && FirstRepeatOf(step, s, m2)
    ensures m1 == m2
  {
  }

  /** A set of naturals below `n` has at most `n` elements. */
  lemma {:induction false} BoundedSetSize(xs: set<nat>, n: nat)
    requires forall x :: x in xs ==> x < n
    ensures |xs| <= n
  {
    if n > 0 {
      BoundedSetSize(xs - {n - 1}, n - 1);
    } else {
      assert xs == {};
    }
  }

  /** A run of distinct states whose next state is one of them ends at the
      first repeat. */
  lemma RepeatClosesRun(step: nat -> nat, start: nat, seen: seq<nat>)
    requires forall j {:trigger seen[j]} :: 0 <= j < |seen| ==> seen[j] == Orbit(step, start, j)
    requires forall a, b :: 0 <= a < b < |seen| ==> seen[a] != seen[b]
    requires Orbit(step, start, |seen|) in seen
    ensures FirstRepeatOf(step, start, |seen|)
  {
    var m := |seen|;
    var j :| 0 <= j < m && seen[j] == Orbit(step, start, m);
    assert Orbit(step, start, j) == Orbit(step, start, m);
    forall a, b | 0 <= a < b < m ensures Orbit(step, start, a) != Orbit(step, start, b) {
      assert seen[a] != seen[b];
    }
  }

  /** `seen` lists the first states of the orbit from `start`, without repeats. */
  ghost predicate DistinctRun(step: nat -> nat, start: nat, seen: seq<nat>)
  {
    (forall j {:trigger seen[j]} :: 0 <= j < |seen| ==> seen[j] == Orbit(step, start, j)) &&
    forall a, b :: 0 <= a < b < |seen| ==> seen[a] != seen[b]
  }

  /** A next state that was not seen extends the run. */
  lemma ExtendRun(step: nat -> nat, start: nat, seen: seq<nat>, state: nat)
    requires DistinctRun(step, start, seen)
    requires state == Orbit(step, start, |seen|) && state !in seen
    ensures DistinctRun(step, start, seen + [state])
  {
    var after := seen + [state];
    forall a, b | 0 <= a < b < |after| ensures after[a] != after[b] {
      if b < |seen| {
        assert after[a] == seen[a] && after[b] == seen[b];
      } else {
        assert after[a] in seen;
      }
    }
    forall j | 0 <= j < |after| ensures after[j] == Orbit(step, start, j) {
      if j < |seen| {
        assert after[j] == seen[j];
      }
    }
  }

  /** The invariant of the loop of `get_first_repeat_state`: `seen` lists the
      states so far, `states` holds the same ones, and `state` is the next. */
  ghost predicate RepeatInv(step: nat -> nat, bound: nat, start: nat, states: set<nat>, seen: seq<nat>, state: nat)
  {
    && |seen| >= 1 && seen[0] == start && state == Orbit(step, start, |seen|)
    && DistinctRun(step, start, seen)
    && (forall x :: x in states <==> x in seen)
    && |states| == |seen|
    && (forall x :: x in states ==> x == start || x < bound)
  }

  /** Adding a state not seen before keeps the invariant, and the set stays
      within `bound + 1` elements. */
  lemma RepeatStep(step: nat -> nat, bound: nat, start: nat, states: set<nat>, seen: seq<nat>, state: nat)
    requires forall x :: step(x) < bound
    requires RepeatInv(step, bound, start, states, seen, state) && state !in states
    ensures RepeatInv(step, bound, start, states + {state}, seen + [state], step(state))
    ensures |states + {state}| == |states| + 1 <= bound + 1
  {
    ExtendRun(step, start, seen, state);
    var next := states + {state};
    assert start in next by {
      assert seen[0] in seen;
    }
    BoundedSetSize(next - {start}, bound);
    assert |next| == |next - {start}| + 1;
    assert (seen + [state])[0] == start;
  }

  /** The loop of `get_first_repeat_state`, for any step that stays below
      `bound` (for `tick` the bound is `2 ** 25`): the states seen so far are
      kept in a set until the next step gives one of them, which is returned. */
  method FirstRepeat(step: nat -> nat, bound: nat, start: nat) returns (r: nat)
    requires forall x :: step(x) < bound
    ensures exists m :: FirstRepeatOf(step, start, m) && r == Orbit(step, start, m)
  {
    var states: set<nat> := {start};
    var state := step(start);
    ghost var seen: seq<nat> := [start];
    while state !in states
      invariant RepeatInv(step, bound, start, states, seen, state)
      invariant |states| <= bound + 1
      decreases bound + 1 - |states|
    {
      RepeatStep(step, bound, start, states, seen, state);
      states := states + {state};
      seen := seen + [state];
      state := step(state);
    }
    RepeatClosesRun(step, start, seen);
    r := state;
  }

  /** `get_first_repeat_state`: the first layout that appears twice. */
  method FirstRepeatState(start: nat) returns (r: nat)
    ensures exists m :: FirstRepeatAt(start, m) && r == Iter(start, m)
  {
    forall x: nat ensures Tick(x) < Pow2(25) {
      TickBits(x, 0);
    }
    r := FirstRepeat(Tick, Pow2(25), start);
    ghost var m :| FirstRepeatOf(Tick, start, m) && r == Orbit(Tick, start, m);
    assert FirstRepeatAt(start, m) && r == Iter(start, m);
  }
}
