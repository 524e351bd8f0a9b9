/** Day 3 (aoc/d03.py): class WireTracer traces each wire's path on the grid
    from the origin, intersects the paths, and reports the crossing nearest to
    the origin and the crossing reached in the fewest combined steps. A wire is
    given as its moves, each a letter and a count (the source's `int(m[1:])`
    of each "R8"-style word is left to the caller). */
module Day03 {
  import opened Wrappers
  import opened Lists

  type Point = (int, int)

  datatype Move = Move(dir: char, count: int)

  const Origin: Point := (0, 0)

  /** The unit step of each direction letter, with U as +y. */
  function Delta(d: char): Point
  {
    if d == 'U' then (0, 1)
    else if d == 'D' then (0, -1)
    else if d == 'L' then (-1, 0)
    else if d == 'R' then (1, 0)
    else (0, 0)
  }

  predicate IsDir(d: char)
  {
    d == 'U' || d == 'D' || d == 'L' || d == 'R'
  }

  /** The positions one move adds from `(x, y)` (`range(c)` is empty for
      c <= 0), and where it leaves the tracer: a move with an unknown letter
      adds nothing and stays, a negative count jumps back without adding. */
  function Segment(p: Point, m: Move): (seq<Point>, Point)
    ensures var (seg, q) := Segment(p, m);
            && |seg| == (if IsDir(m.dir) && m.count > 0 then m.count else 0)
            && (forall i :: 0 <= i < |seg| ==> seg[i] == (p.0 + Delta(m.dir).0 * (i + 1), p.1 + Delta(m.dir).1 * (i + 1)))
            && q == (p.0 + Delta(m.dir).0 * m.count, p.1 + Delta(m.dir).1 * m.count)
  {
    var (x, y) := p;
    var n := if m.count > 0 then m.count else 0;
    if m.dir == 'U' then (seq(n, i => (x, y + (i + 1))), (x, y + m.count))
    else if m.dir == 'D' then (seq(n, i => (x, y - (i + 1))), (x, y - m.count))
    else if m.dir == 'L' then (seq(n, i => (x - (i + 1), y)), (x - m.count, y))
    else if m.dir == 'R' then (seq(n, i => (x + (i + 1), y)), (x + m.count, y))
    else ([], p)
  }

  /** The positions the moves add after `p`. */
  function TraceFrom(p: Point, moves: seq<Move>): seq<Point>
    decreases moves
  {
    if moves == [] then []
    else
      var (seg, q) := Segment(p, moves[0]);
      seg + TraceFrom(q, moves[1..])
  }

  /** `_trace_wire`: the origin, then every position the moves pass. */
  function Trace(moves: seq<Move>): seq<Point>
  {
    [Origin] + TraceFrom(Origin, moves)
  }

  function SumCounts(moves: seq<Move>): int
  {
    if moves == [] then 0 else moves[0].count + SumCounts(moves[1..])
  }

  function End(p: Point, moves: seq<Move>): Point
    decreases moves
  {
    if moves == [] then p else End(Segment(p, moves[0]).1, moves[1..])
  }

  predicate WellFormed(moves: seq<Move>)
  {
    forall i :: 0 <= i < |moves| ==> IsDir(moves[i].dir) && moves[i].count >= 0
  }

  predicate Adjacent(p: Point, q: Point)
  {
    (q.0 - p.0 == 0 && (q.1 - p.1 == 1 || q.1 - p.1 == -1)) ||
    (q.1 - p.1 == 0 && (q.0 - p.0 == 1 || q.0 - p.0 == -1))
  }

  // ---------------------------------------------------------------------------
  // Properties of a trace

  /** With known letters and non-negative counts, a traced wire has one
      position for the origin and one per step. */
  lemma {:induction false} TraceLength(p: Point, moves: seq<Move>)
    requires WellFormed(moves)
    ensures |TraceFrom(p, moves)| == SumCounts(moves)
    decreases moves
  {
    if moves != [] {
      TraceLength(Segment(p, moves[0]).1, moves[1..]);
    }
  }

  /** Each position of `t` is one unit from the one before it. */
  predicate IsPath(t: seq<Point>)
  {
    forall i :: 0 <= i < |t| - 1 ==> Adjacent(t[i], t[i + 1])
  }

  /** A known move's positions, after its start, form a path to its end. */
  lemma SegmentIsPath(p: Point, m: Move)
    requires IsDir(m.dir) && m.count >= 0
    ensures IsPath([p] + Segment(p, m).0)
    ensures ([p] + Segment(p, m).0)[|Segment(p, m).0|] == Segment(p, m).1
  {
    var (seg, q) := Segment(p, m);
    var t := [p] + seg;
    var (dx, dy) := Delta(m.dir);
    forall i | 0 <= i < |t| - 1
      ensures Adjacent(t[i], t[i + 1])
    {
      assert t[i + 1] == seg[i];
      if i > 0 {
        assert t[i] == seg[i - 1];
      }
      assert t[i] == (p.0 + dx * i, p.1 + dy * i);
      assert t[i + 1] == (p.0 + dx * i + dx, p.1 + dy * i + dy);
    }
    if seg != [] {
      assert t[|seg|] == seg[|seg| - 1];
    }
  }

  /** Two paths, the second starting where the first ends, make one path. */
  lemma PathConcat(a: seq<Point>, b: seq<Point>)
    requires IsPath(a) && IsPath(b) && |a| > 0 && |b| > 0 && a[|a| - 1] == b[0]
    ensures IsPath(a + b[1..])
  {
    var t := a + b[1..];
    forall i | 0 <= i < |t| - 1
      ensures Adjacent(t[i], t[i + 1])
    {
      if i < |a| - 1 {
        assert t[i] == a[i] && t[i + 1] == a[i + 1];
      } else {
        assert t[i] == b[i - |a| + 1] && t[i + 1] == b[i - |a| + 2];
      }
    }
  }

  /** With known letters and non-negative counts, each traced position is one
      unit from the one before it, along the move's direction, and the trace
      ends where the moves lead. */
  lemma {:induction false} TraceIsPath(p: Point, moves: seq<Move>)
    requires WellFormed(moves)
    ensures var t := [p] + TraceFrom(p, moves);
            && (forall i :: 0 <= i < |t| - 1 ==> Adjacent(t[i], t[i + 1]))
            && t[|t| - 1] == End(p, moves)
    decreases moves
  {
    if moves != [] {
      var (seg, q) := Segment(p, moves[0]);
      var rest := TraceFrom(q, moves[1..]);
      assert WellFormed(moves[1..]) by {
        forall i | 0 <= i < |moves[1..]| ensures IsDir(moves[1..][i].dir) && moves[1..][i].count >= 0 {
          assert moves[1..][i] == moves[i + 1];
        }
      }
      TraceIsPath(q, moves[1..]);
      assert IsPath([q] + rest);
      SegmentIsPath(p, moves[0]);
      PathConcat([p] + seg, [q] + rest);
      assert ([q] + rest)[1..] == rest;
      assert [p] + TraceFrom(p, moves) == ([p] + seg) + ([q] + rest)[1..];
      assert ([q] + rest)[|[q] + rest| - 1] == End(q, moves[1..]);
    }
  }

  /** A move whose letter is not U, D, L or R neither adds a position nor moves. */
  lemma UnknownLetterIgnored(p: Point, m: Move, rest: seq<Move>)
    requires !IsDir(m.dir)
    ensures TraceFrom(p, [m] + rest) == TraceFrom(p, rest)
  {
    assert ([m] + rest)[1..] == rest;
  }

  /** `_trace_wire` as written: the loop over the moves, appending each move's
      positions (the branch on the letter is Segment). */
  method TraceWire(moves: seq<Move>) returns (positions: seq<Point>)
    ensures positions == Trace(moves)
  {
    positions := [];
    var x, y := 0, 0;
    positions := positions + [(x, y)];
    for k := 0 to |moves|
      invariant positions + TraceFrom((x, y), moves[k..]) == Trace(moves)
    {
      assert moves[k..][1..] == moves[k + 1..];
      var (added, next) := Segment((x, y), moves[k]);
      positions := positions + added;
      x, y := next.0, next.1;
    }
  }

  // ---------------------------------------------------------------------------
  // Crossings

  function Distance(p: Point): nat
  {
    (if p.0 < 0 then -p.0 else p.0) + (if p.1 < 0 then -p.1 else p.1)
  }

  predicate OnAll(wires: seq<seq<Point>>, p: Point)
  {
    forall i :: 0 <= i < |wires| ==> p in wires[i]
  }

  /** `sum(w.index(p) for w in self.wires)`: the steps each wire takes to reach
      `p` first, added up. */
  function Steps(wires: seq<seq<Point>>, p: Point): nat
    requires OnAll(wires, p)
  {
    if wires == [] then 0 else IndexOf(wires[0], p) + Steps(wires[1..], p)
  }

  class WireTracer {
    var wires: seq<seq<Point>>
    var crossings: set<Point>

    /** `__init__`: traces every wire, then keeps the positions common to all
        of them except the origin. `self.wires[0]` raises IndexError when
        there is no wire. */
    constructor (moves: seq<seq<Move>>)
      requires |moves| > 0
      ensures |wires| == |moves| && forall i :: 0 <= i < |moves| ==> wires[i] == Trace(moves[i])
      ensures forall p :: p in crossings <==> p != Origin && OnAll(wires, p)
    {
      var traced: seq<seq<Point>> := [];
      for i := 0 to |moves|
        invariant |traced| == i && forall j :: 0 <= j < i ==> traced[j] == Trace(moves[j])
      {
        var t := TraceWire(moves[i]);
        traced := traced + [t];
      }
      var common := Intersect(traced);
      wires := traced;
      crossings := common - {Origin};
    }

    /** `set(self.wires[0])` narrowed by `&= set(w)` for each later wire: the
        points on every wire. */
    static method Intersect(traced: seq<seq<Point>>) returns (common: set<Point>)
      requires |traced| > 0
      ensures forall p :: p in common <==> OnAll(traced, p)
    {
      common := set p | p in traced[0];
      for i := 1 to |traced|
        invariant forall p :: p in common <==> forall j :: 0 <= j < i ==> p in traced[j]
      {
        common := common * set p | p in traced[i];
      }
    }

    /** `get_closest_distance`: the least distance from the origin over the
        crossings; `min` of nothing raises ValueError (None). */
    method GetClosestDistance() returns (r: Option<nat>)
      ensures r.None? <==> crossings == {}
      ensures r.Some? ==> (exists p :: p in crossings && Distance(p) == r.value) &&
                          forall p :: p in crossings ==> r.value <= Distance(p)
    {
      var rest := crossings;
      r := None;
      while rest != {}
        invariant rest <= crossings
        invariant r.None? <==> rest == crossings
        invariant r.Some? ==> (exists p :: p in crossings && Distance(p) == r.value) &&
                              forall p :: p in crossings - rest ==> r.value <= Distance(p)
        decreases |rest|
      {
        var p :| p in rest;
        if r.None? || Distance(p) < r.value {
          r := Some(Distance(p));
        }
        rest := rest - {p};
      }
    }

    /** `get_fewest_steps`: the least combined number of steps to a crossing,
        each wire counted to its first visit; None where `min` raises. */
    method GetFewestSteps() returns (r: Option<nat>)
      requires forall p :: p in crossings ==> OnAll(wires, p)
      ensures r.None? <==> crossings == {}
      ensures r.Some? ==> (exists p :: p in crossings && Steps(wires, p) == r.value) &&
                          forall p :: p in crossings ==> r.value <= Steps(wires, p)
    {
      var rest := crossings;
      r := None;
      while rest != {}
        invariant rest <= crossings
        invariant r.None? <==> rest == crossings
        invariant r.Some? ==> (exists p :: p in crossings && Steps(wires, p) == r.value) &&
                              forall p :: p in crossings - rest ==> r.value <= Steps(wires, p)
        decreases |rest|
      {
        var p :| p in rest;
        var s := Steps(wires, p);
        if r.None? || s < r.value {
          r := Some(s);
        }
        rest := rest - {p};
      }
    }
  }

  /** A small trace: two steps right, then one up. */
  lemma TraceExample(moves: seq<Move>)
    requires moves == [Move('R', 2), Move('U', 1)]
    ensures Trace(moves) == [(0, 0), (1, 0), (2, 0), (2, 1)]
  {
    var (s0, q0) := Segment((0, 0), moves[0]);
    assert |s0| == 2 && s0[0] == (1, 0) && s0[1] == (2, 0) && q0 == (2, 0);
    assert s0 == [(1, 0), (2, 0)];
    var (s1, q1) := Segment((2, 0), moves[1]);
    assert |s1| == 1 && s1[0] == (2, 1);
    assert s1 == [(2, 1)];
    assert moves[1..][1..] == [];
    assert TraceFrom((2, 1), []) == [];
    assert TraceFrom((0, 0), moves) == s0 + s1;
  }
}
