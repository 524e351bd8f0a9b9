/** Day 12 (aoc/d12.py): moons with integer positions and velocities pull on
    each other one unit per axis per step. A `Moon` object holds one moon's
    six coordinates and is updated in place; a `System` holds the list of
    moons and steps them. Every operation takes an axis mask: bit 1 selects
    x, bit 2 selects y and bit 4 selects z. */
module Day12 {
  import opened Wrappers
  import opened Lists

  /** One moon's position and velocity, as a value. */
  datatype MoonState = MoonState(x: int, y: int, z: int, vx: int, vy: int, vz: int)

  /** The position on axis `c` (0 = x, 1 = y, 2 = z). */
  function Pos(m: MoonState, c: nat): int
  {
    if c == 0 then m.x else if c == 1 then m.y else m.z
  }

  /** The velocity on axis `c` (0 = x, 1 = y, 2 = z). */
  function Vel(m: MoonState, c: nat): int
  {
    if c == 0 then m.vx else if c == 1 then m.vy else m.vz
  }

  /** `axis & 1`, `axis & 2`, `axis & 4`: whether the mask enables axis `c`. */
  predicate Enabled(axis: nat, c: nat)
  {
    if c == 0 then axis % 2 == 1
    else if c == 1 then (axis / 2) % 2 == 1
    else (axis / 4) % 2 == 1
  }

  /** The velocity change the moon at `p` gets from the one at `q`. */
  function Pull(p: int, q: int): int
  {
    if p < q then 1 else if p > q then -1 else 0
  }

  /** The change of `a`'s velocity on axis `c` caused by `b` under the mask. */
  function Kick(a: MoonState, b: MoonState, c: nat, axis: nat): (k: int)
    ensures -1 <= k <= 1
    ensures k == 1 ==> Pos(a, c) < Pos(b, c)
    ensures k == -1 ==> Pos(a, c) > Pos(b, c)
    ensures k == 0 <==> !Enabled(axis, c) || Pos(a, c) == Pos(b, c)
  {
    if Enabled(axis, c) then Pull(Pos(a, c), Pos(b, c)) else 0
  }

  /** `Moon.apply_gravity(o, axis)`: the pair after `a` and `b` pull on each
      other on every enabled axis. */
  function PairGravity(a: MoonState, b: MoonState, axis: nat): (MoonState, MoonState)
  {
    var kx, ky, kz := Kick(a, b, 0, axis), Kick(a, b, 1, axis), Kick(a, b, 2, axis);
    (a.(vx := a.vx + kx, vy := a.vy + ky, vz := a.vz + kz),
     b.(vx := b.vx - kx, vy := b.vy - ky, vz := b.vz - kz))
  }

  /** Gravity moves each velocity one unit towards the other moon on every
      enabled axis and none on an equal coordinate or a disabled axis; it keeps
      the positions and the pair's velocity sum on every axis. */
  lemma PairGravityRule(a: MoonState, b: MoonState, axis: nat, c: nat)
    requires c < 3
    ensures var (a2, b2) := PairGravity(a, b, axis);
            && Pos(a2, c) == Pos(a, c) && Pos(b2, c) == Pos(b, c)
            && Vel(a2, c) + Vel(b2, c) == Vel(a, c) + Vel(b, c)
            && Vel(a2, c) - Vel(a, c) == (if !Enabled(axis, c) then 0 else Pull(Pos(a, c), Pos(b, c)))
            && Vel(b2, c) - Vel(b, c) == (if !Enabled(axis, c) then 0 else Pull(Pos(b, c), Pos(a, c)))
  {
  }

  /** `Moon.move(axis)`: every enabled axis's position advances by its
      velocity. */
  function MoonAfterMove(m: MoonState, axis: nat): (r: MoonState)
    ensures forall c :: 0 <= c < 3 ==> Vel(r, c) == Vel(m, c)
    ensures forall c :: 0 <= c < 3 ==> Pos(r, c) == Pos(m, c) + (if Enabled(axis, c) then Vel(m, c) else 0)
  {
    m.(x := if Enabled(axis, 0) then m.x + m.vx else m.x,
       y := if Enabled(axis, 1) then m.y + m.vy else m.y,
       z := if Enabled(axis, 2) then m.z + m.vz else m.z)
  }

  /** `pot_e`, `kin_e` and `e` of one moon. */
  function Abs(n: int): nat
  {
    if n < 0 then -n else n
  }

  function Potential(m: MoonState): nat
  {
    Abs(m.x) + Abs(m.y) + Abs(m.z)
  }

  function Kinetic(m: MoonState): nat
  {
    Abs(m.vx) + Abs(m.vy) + Abs(m.vz)
  }

  /** A moon's energy is never negative, and it is zero exactly when the moon
      sits at the origin or stands still. */
  function Energy(m: MoonState): (e: nat)
    ensures e == 0 <==> (m.x == 0 && m.y == 0 && m.z == 0) || (m.vx == 0 && m.vy == 0 && m.vz == 0)
  {
    ProductIsZero(Potential(m), Kinetic(m));
    Potential(m) * Kinetic(m)
  }

  lemma ProductIsZero(a: nat, b: nat)
    ensures a * b == 0 <==> a == 0 || b == 0
  {
    if a > 0 && b > 0 {
      assert a * b >= b;
    }
  }

  /** `System.e`: the sum of the moons' energies. */
  function TotalEnergy(s: seq<MoonState>): (e: int)
    ensures e >= 0
    ensures e == 0 <==> forall k :: 0 <= k < |s| ==> Energy(s[k]) == 0
  {
    if s == [] then 0 else Energy(s[0]) + TotalEnergy(s[1..])
  }

  // ---------------------------------------------------------------------------
  // The system as a value

  /** The positions of the moons, which is all that `Moon.__eq__` compares. */
  function Positions(s: seq<MoonState>): seq<(int, int, int)>
  {
    seq(|s|, k requires 0 <= k < |s| => (s[k].x, s[k].y, s[k].z))
  }

  /** The velocities on axis `c`. */
  function Velocities(s: seq<MoonState>, c: nat): seq<int>
  {
    seq(|s|, k requires 0 <= k < |s| => Vel(s[k], c))
  }

  /** `System.__eq__` compares the moon lists with `Moon.__eq__`. */
  predicate SameSystem(s: seq<MoonState>, t: seq<MoonState>)
  {
    |s| == |t| && forall k :: 0 <= k < |s| ==> s[k].x == t[k].x && s[k].y == t[k].y && s[k].z == t[k].z
  }

  /** So two systems are equal exactly when their positions are, whatever
      their velocities. */
  lemma SameSystemIsSamePositions(s: seq<MoonState>, t: seq<MoonState>)
    ensures SameSystem(s, t) <==> Positions(s) == Positions(t)
  {
    if Positions(s) == Positions(t) {
      assert |s| == |Positions(s)|;
      forall k | 0 <= k < |s|
        ensures s[k].x == t[k].x && s[k].y == t[k].y && s[k].z == t[k].z
      {
        assert Positions(s)[k] == Positions(t)[k];
      }
    }
  }

  /** One pull between moons `i` and `j`. */
  function ApplyPair(s: seq<MoonState>, i: nat, j: nat, axis: nat): (r: seq<MoonState>)
    requires i < j < |s|
    ensures |r| == |s|
  {
    var (a, b) := PairGravity(s[i], s[j], axis);
    s[i := a][j := b]
  }

  /** The pulls between moon `i` and the moons `j`, `j + 1`, ... in order. */
  function GravityRow(s: seq<MoonState>, i: nat, j: nat, axis: nat): (r: seq<MoonState>)
    requires i < j <= |s|
    ensures |r| == |s|
    decreases |s| - j
  {
    if j == |s| then s else GravityRow(ApplyPair(s, i, j, axis), i, j + 1, axis)
  }

  /** The rows of pulls from moon `i` on. */
  function GravityRows(s: seq<MoonState>, i: nat, axis: nat): (r: seq<MoonState>)
    ensures |r| == |s|
    decreases |s| - i
  {
    if i + 1 >= |s| then s else GravityRows(GravityRow(s, i, i + 1, axis), i + 1, axis)
  }

  /** `System._apply_gravity`: every pair `i < j` pulls once, in the order of
      the nested loops. */
  function Gravity(s: seq<MoonState>, axis: nat): seq<MoonState>
  {
    GravityRows(s, 0, axis)
  }

  /** `System._move`. */
  function Moved(s: seq<MoonState>, axis: nat): (r: seq<MoonState>)
    ensures |r| == |s|
  {
    seq(|s|, k requires 0 <= k < |s| => MoonAfterMove(s[k], axis))
  }

  /** `System._step`: gravity on every pair, then every moon moves. */
  function StepOnce(s: seq<MoonState>, axis: nat): seq<MoonState>
  {
    Moved(Gravity(s, axis), axis)
  }

  /** `System.step(n, axis)`. */
  function Steps(s: seq<MoonState>, n: nat, axis: nat): seq<MoonState>
  {
    if n == 0 then s else StepOnce(Steps(s, n - 1, axis), axis)
  }

  // ---------------------------------------------------------------------------
  // What gravity keeps

  lemma SumUpdate(xs: seq<int>, i: nat, v: int)
    requires i < |xs|
    ensures Sum(xs[i := v]) == Sum(xs) - xs[i] + v
  {
    assert xs == xs[..i] + [xs[i]] + xs[i + 1..];
    assert xs[i := v] == xs[..i] + [v] + xs[i + 1..];
    SumAppend(xs[..i] + [xs[i]], xs[i + 1..]);
    SumAppend(xs[..i], [xs[i]]);
    SumAppend(xs[..i] + [v], xs[i + 1..]);
    SumAppend(xs[..i], [v]);
  }

  /** One pull keeps every position and the total velocity on every axis, and
      leaves a disabled axis's velocities as they were. */
  lemma ApplyPairKeeps(s: seq<MoonState>, i: nat, j: nat, axis: nat, c: nat)
    requires i < j < |s| && c < 3
    ensures Positions(ApplyPair(s, i, j, axis)) == Positions(s)
    ensures Sum(Velocities(ApplyPair(s, i, j, axis), c)) == Sum(Velocities(s, c))
    ensures !Enabled(axis, c) ==> Velocities(ApplyPair(s, i, j, axis), c) == Velocities(s, c)
  {
    var r := ApplyPair(s, i, j, axis);
    PairGravityRule(s[i], s[j], axis, c);
    var vs := Velocities(s, c);
    var mid := vs[i := Vel(r[i], c)];
    assert Velocities(r, c) == mid[j := Vel(r[j], c)];
    SumUpdate(vs, i, Vel(r[i], c));
    SumUpdate(mid, j, Vel(r[j], c));
  }

  lemma {:induction false} GravityRowKeeps(s: seq<MoonState>, i: nat, j: nat, axis: nat, c: nat)
    requires i < j <= |s| && c < 3
    ensures Positions(GravityRow(s, i, j, axis)) == Positions(s)
    ensures Sum(Velocities(GravityRow(s, i, j, axis), c)) == Sum(Velocities(s, c))
    ensures !Enabled(axis, c) ==> Velocities(GravityRow(s, i, j, axis), c) == Velocities(s, c)
    decreases |s| - j
  {
    if j < |s| {
      ApplyPairKeeps(s, i, j, axis, c);
      GravityRowKeeps(ApplyPair(s, i, j, axis), i, j + 1, axis, c);
    }
  }

  lemma {:induction false} GravityRowsKeep(s: seq<MoonState>, i: nat, axis: nat, c: nat)
    requires c < 3
    ensures Positions(GravityRows(s, i, axis)) == Positions(s)
    ensures Sum(Velocities(GravityRows(s, i, axis), c)) == Sum(Velocities(s, c))
    ensures !Enabled(axis, c) ==> Velocities(GravityRows(s, i, axis), c) == Velocities(s, c)
    decreases |s| - i
  {
    if i + 1 < |s| {
      GravityRowKeeps(s, i, i + 1, axis, c);
      GravityRowsKeep(GravityRow(s, i, i + 1, axis), i + 1, axis, c);
    }
  }

  /** `_apply_gravity` moves no moon, keeps the system's total velocity on
      every axis, and leaves the velocities on a disabled axis alone. */
  lemma GravityKeeps(s: seq<MoonState>, axis: nat, c: nat)
    requires c < 3
    ensures Positions(Gravity(s, axis)) == Positions(s)
    ensures Sum(Velocities(Gravity(s, axis), c)) == Sum(Velocities(s, c))
    ensures !Enabled(axis, c) ==> Velocities(Gravity(s, axis), c) == Velocities(s, c)
  {
    GravityRowsKeep(s, 0, axis, c);
  }

  /** The total pull on moon `k` along axis `c` from the moons `lo` .. `hi - 1`. */
  function KickSum(s: seq<MoonState>, k: nat, c: nat, axis: nat, lo: nat, hi: nat): int
    requires k < |s| && hi <= |s|
    decreases hi - lo
  {
    if lo >= hi then 0 else Kick(s[k], s[lo], c, axis) + KickSum(s, k, c, axis, lo + 1, hi)
  }

  lemma {:induction false} KickSumSamePositions(s: seq<MoonState>, t: seq<MoonState>, k: nat, c: nat, axis: nat, lo: nat, hi: nat)
    requires k < |s| && hi <= |s| && Positions(s) == Positions(t) && c < 3
    ensures |t| == |s| && KickSum(s, k, c, axis, lo, hi) == KickSum(t, k, c, axis, lo, hi)
    decreases hi - lo
  {
    assert |Positions(s)| == |s| && |Positions(t)| == |t|;
    if lo < hi {
      assert Positions(s)[k] == Positions(t)[k] && Positions(s)[lo] == Positions(t)[lo];
      KickSumSamePositions(s, t, k, c, axis, lo + 1, hi);
    }
  }

  /** After the pulls between moon `i` and moons `j` .. `|s| - 1`, moon `i`
      has every one of their pulls, each of those moons has moon `i`'s, and
      the others are as they were. */
  lemma {:induction false} GravityRowVelocity(s: seq<MoonState>, i: nat, j: nat, axis: nat, c: nat, k: nat)
    requires i < j <= |s| && c < 3 && k < |s|
    ensures Vel(GravityRow(s, i, j, axis)[k], c) == Vel(s[k], c) +
      (if k == i then KickSum(s, i, c, axis, j, |s|) else if k >= j then Kick(s[k], s[i], c, axis) else 0)
    decreases |s| - j
  {
    if j < |s| {
      var t := ApplyPair(s, i, j, axis);
      PairGravityRule(s[i], s[j], axis, c);
      GravityRowVelocity(t, i, j + 1, axis, c, k);
      ApplyPairKeeps(s, i, j, axis, c);
      assert Positions(t)[i] == Positions(s)[i] && Positions(t)[k] == Positions(s)[k];
      if k == i {
        KickSumSamePositions(t, s, i, c, axis, j + 1, |s|);
      }
    }
  }

  /** After the rows from moon `i` on, every moon `k >= i` has the pull of
      every moon `i` .. `|s| - 1`; the earlier ones are as they were. */
  lemma {:induction false} GravityRowsVelocity(s: seq<MoonState>, i: nat, axis: nat, c: nat, k: nat)
    requires c < 3 && k < |s|
    ensures Vel(GravityRows(s, i, axis)[k], c) == Vel(s[k], c) + (if k >= i then KickSum(s, k, c, axis, i, |s|) else 0)
    decreases |s| - i
  {
    if i + 1 < |s| {
      var t := GravityRow(s, i, i + 1, axis);
      GravityRowVelocity(s, i, i + 1, axis, c, k);
      GravityRowsVelocity(t, i + 1, axis, c, k);
      GravityRowKeeps(s, i, i + 1, axis, c);
      if k > i {
        KickSumSamePositions(t, s, k, c, axis, i + 1, |s|);
      }
    } else if k >= i {
      assert k == i && KickSum(s, k, c, axis, i + 1, |s|) == 0;
    }
  }

  /** The order of the pairs does not matter: after `_apply_gravity` each
      moon's velocity on axis `c` has changed by the sum of the pulls of all
      the moons (its own pull on itself is zero). */
  lemma GravityClosedForm(s: seq<MoonState>, axis: nat, c: nat, k: nat)
    requires c < 3 && k < |s|
    ensures Vel(Gravity(s, axis)[k], c) == Vel(s[k], c) + KickSum(s, k, c, axis, 0, |s|)
  {
    GravityRowsVelocity(s, 0, axis, c, k);
  }

  /** A whole step on a mask that leaves axis `c` out changes nothing on that
      axis: neither its positions nor its velocities. */
  lemma {:induction false} StepsKeepDisabledAxis(s: seq<MoonState>, n: nat, axis: nat, c: nat)
    requires c < 3 && !Enabled(axis, c)
    ensures |Steps(s, n, axis)| == |s|
    ensures Velocities(Steps(s, n, axis), c) == Velocities(s, c)
    ensures forall k :: 0 <= k < |s| ==> Pos(Steps(s, n, axis)[k], c) == Pos(s[k], c)
  {
    if n > 0 {
      StepsKeepDisabledAxis(s, n - 1, axis, c);
      var t := Steps(s, n - 1, axis);
      var g := Gravity(t, axis);
      GravityKeeps(t, axis, c);
      assert |g| == |t|;
      forall k | 0 <= k < |s|
        ensures Pos(Steps(s, n, axis)[k], c) == Pos(s[k], c)
        ensures Vel(Steps(s, n, axis)[k], c) == Vel(s[k], c)
      {
        assert Positions(g)[k] == Positions(t)[k];
        assert Velocities(g, c)[k] == Velocities(t, c)[k];
        assert Velocities(t, c)[k] == Velocities(s, c)[k];
      }
    }
  }

  /** Moving keeps the total velocity too, so every step keeps it. */
  lemma {:induction false} StepsKeepMomentum(s: seq<MoonState>, n: nat, axis: nat, c: nat)
    requires c < 3
    ensures Sum(Velocities(Steps(s, n, axis), c)) == Sum(Velocities(s, c))
  {
    if n > 0 {
      StepsKeepMomentum(s, n - 1, axis, c);
      var t := Steps(s, n - 1, axis);
      GravityKeeps(t, axis, c);
      assert Velocities(Moved(Gravity(t, axis), axis), c) == Velocities(Gravity(t, axis), c);
    }
  }

  /** `step(n)` then `step(m)` is `step(n + m)`. */
  lemma {:induction false} StepsAdd(s: seq<MoonState>, n: nat, m: nat, axis: nat)
    ensures Steps(Steps(s, n, axis), m, axis) == Steps(s, n + m, axis)
  {
    if m > 0 {
      StepsAdd(s, n, m - 1, axis);
    }
  }

  // ---------------------------------------------------------------------------
  // get_period

  /** `System._get_positions(axis)`: despite its name, the velocities on the
      single axis the mask names, and `None` for any other mask. */
  function AxisVelocities(s: seq<MoonState>, axis: nat): Option<seq<int>>
  {
    if axis == 1 then Some(Velocities(s, 0))
    else if axis == 2 then Some(Velocities(s, 1))
    else if axis == 4 then Some(Velocities(s, 2))
    else None
  }

  /** After `i >= 1` steps the axis's velocities are back to the start. */
  predicate Returns(s: seq<MoonState>, axis: nat, i: nat)
  {
    i >= 1 && AxisVelocities(Steps(s, i, axis), axis) == AxisVelocities(s, axis)
  }

  /** On any other mask both sides are `None`, so the first step already
      counts as a return. */
  lemma OtherMaskReturnsAtOnce(s: seq<MoonState>, axis: nat)
    requires axis != 1 && axis != 2 && axis != 4
    ensures Returns(s, axis, 1)
  {
  }

  // ---------------------------------------------------------------------------
  // The objects

  /** `Moon`: one moon, updated in place. */
  class Moon {
    var x: int
    var y: int
    var z: int
    var vx: int
    var vy: int
    var vz: int

    function State(): MoonState
      reads this
    {
      MoonState(x, y, z, vx, vy, vz)
    }

    /** `Moon(x, y, z, vx=0, vy=0, vz=0)`. */
    constructor (x0: int, y0: int, z0: int, vx0: int, vy0: int, vz0: int)
      ensures State() == MoonState(x0, y0, z0, vx0, vy0, vz0)
    {
      x, y, z := x0, y0, z0;
      vx, vy, vz := vx0, vy0, vz0;
    }

    /** `apply_gravity(o, axis)`. When `o` is this very moon every coordinate
        equals itself and nothing changes, as in the source. */
    method ApplyGravity(o: Moon, axis: nat)
      modifies this, o
      ensures (State(), o.State()) == PairGravity(old(State()), old(o.State()), axis)
    {
      ghost var a, b := State(), o.State();
      if axis % 2 == 1 {
        if x < o.x {
          vx := vx + 1;
          o.vx := o.vx - 1;
        } else if x > o.x {
          vx := vx - 1;
          o.vx := o.vx + 1;
        }
      }
      assert vx == a.vx + Kick(a, b, 0, axis) && o.vx == b.vx - Kick(a, b, 0, axis);
      if (axis / 2) % 2 == 1 {
        if y < o.y {
          vy := vy + 1;
          o.vy := o.vy - 1;
        } else if y > o.y {
          vy := vy - 1;
          o.vy := o.vy + 1;
        }
      }
      assert vy == a.vy + Kick(a, b, 1, axis) && o.vy == b.vy - Kick(a, b, 1, axis);
      if (axis / 4) % 2 == 1 {
        if z < o.z {
          vz := vz + 1;
          o.vz := o.vz - 1;
        } else if z > o.z {
          vz := vz - 1;
          o.vz := o.vz + 1;
        }
      }
    }

    /** `move(axis)`. */
    method Move(axis: nat)
      modifies this
      ensures State() == MoonAfterMove(old(State()), axis)
    {
      if axis % 2 == 1 {
        x := x + vx;
      }
      if (axis / 2) % 2 == 1 {
        y := y + vy;
      }
      if (axis / 4) % 2 == 1 {
        z := z + vz;
      }
    }
  }

  /** `System`: the list of moons, each a distinct object. */
  class System {
    const moons: seq<Moon>
    const size: nat

    predicate Valid()
    {
      size == |moons| && forall i, j :: 0 <= i < j < |moons| ==> moons[i] != moons[j]
    }

    function States(): (r: seq<MoonState>)
      reads moons
      ensures |r| == |moons|
    {
      seq(|moons|, k requires 0 <= k < |moons| reads moons => moons[k].State())
    }

    constructor (ms: seq<Moon>)
      requires forall i, j :: 0 <= i < j < |ms| ==> ms[i] != ms[j]
      ensures Valid() && moons == ms
    {
      moons := ms;
      size := |ms|;
    }

    /** `System.e`. */
    function E(): (e: int)
      reads moons
      ensures e >= 0
    {
      TotalEnergy(States())
    }

    /** `_apply_gravity`: the nested loops over the pairs `i < j`. */
    method ApplyGravity(axis: nat)
      requires Valid()
      modifies moons
      ensures States() == Gravity(old(States()), axis)
    {
      ghost var goal := Gravity(States(), axis);
      var i := 0;
      while i < size - 1
        invariant 0 <= i <= size
        invariant goal == GravityRows(States(), i, axis)
      {
        PullRow(i, axis);
        i := i + 1;
      }
    }

    /** The inner loop of `_apply_gravity`: moon `i` against each later moon. */
    method PullRow(i: nat, axis: nat)
      requires Valid() && i + 1 < size
      modifies moons
      ensures States() == GravityRow(old(States()), i, i + 1, axis)
    {
      for j := i + 1 to size
        invariant GravityRow(old(States()), i, i + 1, axis) == GravityRow(States(), i, j, axis)
      {
        ghost var before := States();
        PullPair(i, j, axis);
        assert GravityRow(before, i, j, axis) == GravityRow(States(), i, j + 1, axis);
      }
    }

    /** One `moons[i].apply_gravity(moons[j], axis)` of `_apply_gravity`:
        only those two moons change. */
    method PullPair(i: nat, j: nat, axis: nat)
      requires Valid() && i < j < size
      modifies moons[i], moons[j]
      ensures States() == ApplyPair(old(States()), i, j, axis)
    {
      ghost var before := States();
      var m1 := moons[i];
      var m2 := moons[j];
      m1.ApplyGravity(m2, axis);
      forall k | 0 <= k < |moons| && k != i && k != j
        ensures moons[k].State() == before[k]
      {
        assert moons[k] != m1 && moons[k] != m2;
      }
    }

    /** `_move`. */
    method MoveAll(axis: nat)
      requires Valid()
      modifies moons
      ensures States() == Moved(old(States()), axis)
    {
      for k := 0 to size
        invariant forall l :: 0 <= l < k ==> moons[l].State() == MoonAfterMove(old(moons[l].State()), axis)
        invariant forall l :: k <= l < size ==> moons[l].State() == old(moons[l].State())
      {
        moons[k].Move(axis);
      }
    }

    /** `step(n, axis)`. */
    method Step(n: nat, axis: nat)
      requires Valid()
      modifies moons
      ensures States() == Steps(old(States()), n, axis)
    {
      for i := 0 to n
        invariant States() == Steps(old(States()), i, axis)
      {
        ApplyGravity(axis);
        MoveAll(axis);
      }
    }

    /** `get_period(axis)`: twice the first number of steps after which the
        axis's velocities are back to where they started. The source loops
        without bound; here at most `fuel` steps are taken and `None` means
        no return within them. */
    method GetPeriod(axis: nat, fuel: nat) returns (r: Option<nat>)
      requires Valid()
      modifies moons
      ensures r.Some? ==> exists i :: r.value == 2 * i && Returns(old(States()), axis, i)
                                    && forall k :: 1 <= k < i ==> !Returns(old(States()), axis, k)
      ensures r.None? ==> forall k :: 1 <= k <= fuel ==> !Returns(old(States()), axis, k)
      ensures r.Some? ==> States() == Steps(old(States()), r.value / 2, axis)
      ensures r.None? ==> States() == Steps(old(States()), fuel, axis)
    {
      ghost var start := States();
      var init := AxisVelocities(States(), axis);
      var i := 0;
      while i < fuel
        invariant i <= fuel && States() == Steps(start, i, axis)
        invariant forall k :: 1 <= k <= i ==> !Returns(start, axis, k)
      {
        i := i + 1;
        Step(1, axis);
        if AxisVelocities(States(), axis) == init {
          assert Returns(start, axis, i);
          return Some(i * 2);
        }
      }
      return None;
    }
  }
}
