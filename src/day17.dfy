/** Day 17 (aoc/d17.py): the scaffold grid and the vacuum robot's movement
    routine. `find_block`, `get_next_block` and `compress` search a list of
    movement strings for repeated runs; `Grid` holds the camera image and the
    robot, whose position and facing change in place as it turns and walks
    the scaffold. */
module Day17 {
  import opened Wrappers
  import opened Lists

  // ---------------------------------------------------------------------------
  // Block search

  /** `data[i:i+len(block)] == block`: with a non-empty block the slice can
      only equal it when it is not cut short by the end of `data`. */
  predicate Matches(data: seq<string>, block: seq<string>, i: nat)
  {
    i + |block| <= |data| && data[i..i + |block|] == block
  }

  /** The positions `find_block` visits from `i` on: a match is taken and
      skipped over whole, otherwise the scan moves one on. */
  function FindFrom(data: seq<string>, block: seq<string>, i: nat): seq<nat>
    requires block != []
    decreases |data| - i
  {
    if i >= |data| then []
    else if Matches(data, block, i) then [i] + FindFrom(data, block, i + |block|)
    else FindFrom(data, block, i + 1)
  }

  /** Every position found from `i` is at or after `i` and holds the block,
      and each starts at or after the end of the previous one. */
  lemma {:induction false} FindFromSound(data: seq<string>, block: seq<string>, i: nat)
    requires block != []
    ensures forall k :: 0 <= k < |FindFrom(data, block, i)| ==> i <= FindFrom(data, block, i)[k] && Matches(data, block, FindFrom(data, block, i)[k])
    ensures forall k :: 0 < k < |FindFrom(data, block, i)| ==> FindFrom(data, block, i)[k - 1] + |block| <= FindFrom(data, block, i)[k]
    decreases |data| - i
  {
    var r := FindFrom(data, block, i);
    if i < |data| {
      if Matches(data, block, i) {
        var rest := FindFrom(data, block, i + |block|);
        FindFromSound(data, block, i + |block|);
        assert r == [i] + rest;
        forall k | 0 <= k < |r|
          ensures i <= r[k] && Matches(data, block, r[k])
        {
          if k > 0 {
            assert r[k] == rest[k - 1];
          }
        }
        forall k | 0 < k < |r|
          ensures r[k - 1] + |block| <= r[k]
        {
          assert r[k] == rest[k - 1];
          if k > 1 {
            assert r[k - 1] == rest[k - 2];
          }
        }
      } else {
        FindFromSound(data, block, i + 1);
        assert r == FindFrom(data, block, i + 1);
      }
    }
  }

  /** `find_block(data, block, offset)`: nothing for an empty block. */
  function Find(data: seq<string>, block: seq<string>, offset: nat): seq<nat>
  {
    if block == [] then [] else FindFrom(data, block, offset)
  }

  /** The scan misses no occurrence: every match at or after `i` is either
      found or lies inside the span of one that was. */
  lemma {:induction false} FindFromComplete(data: seq<string>, block: seq<string>, i: nat, j: nat)
    requires block != [] && i <= j < |data| && Matches(data, block, j)
    ensures exists k :: 0 <= k < |FindFrom(data, block, i)| && FindFrom(data, block, i)[k] <= j < FindFrom(data, block, i)[k] + |block|
    decreases |data| - i
  {
    var r := FindFrom(data, block, i);
    if Matches(data, block, i) {
      if j < i + |block| {
        assert r[0] == i;
      } else {
        FindFromComplete(data, block, i + |block|, j);
        var rest := FindFrom(data, block, i + |block|);
        var k :| 0 <= k < |rest| && rest[k] <= j < rest[k] + |block|;
        assert r[k + 1] == rest[k];
      }
    } else {
      assert j != i;
      FindFromComplete(data, block, i + 1, j);
    }
  }

  /** `find_block`: the scan of `FindFrom`, so every position is at or after
      `offset`, holds the block, and starts at or after the end of the
      previous one, and (`FindFromComplete`) no occurrence is missed except
      inside a found one. */
  method FindBlock(data: seq<string>, block: seq<string>, offset: nat) returns (positions: seq<nat>)
    ensures positions == Find(data, block, offset)
  {
    if block == [] {
      return [];
    }
    positions := [];
    var i := offset;
    var blen := |block|;
    while i < |data|
      invariant offset <= i
      invariant positions + FindFrom(data, block, i) == FindFrom(data, block, offset)
      decreases |data| - i
    {
      var b := Slice(data, i, i + blen);
      if b == block {
        assert Matches(data, block, i);
        positions := positions + [i];
        i := i + blen;
      } else {
        assert !Matches(data, block, i);
        i := i + 1;
      }
    }
  }

  /** Matches do not overlap: in `a,a,a` the block `a,a` is found once, and
      in `a,b,a,b,a` the block `a,b` twice. */
  lemma FindExamples()
    ensures Find(["a", "a", "a"], ["a", "a"], 0) == [0]
    ensures Find(["a", "b", "a", "b", "a"], ["a", "b"], 0) == [0, 2]
  {
    var d1: seq<string> := ["a", "a", "a"];
    assert Matches(d1, ["a", "a"], 0) && d1[0..2] == ["a", "a"];
    assert FindFrom(d1, ["a", "a"], 2) == [];
    var d2: seq<string> := ["a", "b", "a", "b", "a"];
    assert d2[0..2] == ["a", "b"] && d2[2..4] == ["a", "b"];
    assert FindFrom(d2, ["a", "b"], 4) == [];
  }

  /** `len(",".join(block))`. */
  function JoinLength(block: seq<string>): nat
  {
    if block == [] then 0
    else if |block| == 1 then |block[0]|
    else |block[0]| + 1 + JoinLength(block[1..])
  }

  /** The run of `n` elements at `offset` and where `find_block` finds it
      again after itself. */
  function Prefix(data: seq<string>, offset: nat, n: nat): seq<string>
  {
    Slice(data, offset, offset + n)
  }

  function Repeats(data: seq<string>, offset: nat, n: nat): seq<nat>
  {
    Find(data, Prefix(data, offset, n), offset + n)
  }

  /** `get_next_block(data, offset)`: the run at `offset` is grown one
      element at a time while it still occurs again further on and, from
      two elements on, its comma-joined text fits in 20 characters; the
      result is the last length before that failed, with its repeats. So a
      non-empty result repeats, and one element more either does not repeat
      or no longer fits. */
  method GetNextBlock(data: seq<string>, offset: nat) returns (block: seq<string>, positions: seq<nat>)
    ensures block == Prefix(data, offset, |block|) && positions == Repeats(data, offset, |block|)
    ensures block != [] ==> positions != [] && offset + |block| < |data|
    ensures Repeats(data, offset, |block| + 1) == [] || JoinLength(Prefix(data, offset, |block| + 1)) > 20
    ensures |block| >= 2 ==> JoinLength(block) <= 20
    ensures block == [] <==> Repeats(data, offset, 1) == []
  {
    var blockLen := Grow(data, offset);
    // The source's `if block_len == 0` cannot hold here: the length starts at 1.
    ghost var failed := blockLen;
    blockLen := blockLen - 1;
    if blockLen > 0 {
      RepeatsInside(data, offset, blockLen);
    }
    block := Slice(data, offset, offset + blockLen);
    assert |block| == blockLen && |block| + 1 == failed;
    assert block == Prefix(data, offset, |block|);
    assert Repeats(data, offset, |block|) == Find(data, block, offset + blockLen);
    positions := FindBlock(data, block, offset + blockLen);
  }

  /** What holds of a length `n` the loop of `get_next_block` reached: every
      shorter block repeats and, from two elements on, fits. */
  ghost predicate Grown(data: seq<string>, offset: nat, n: nat)
  {
    && 1 <= n
    && (n >= 2 ==> Repeats(data, offset, n - 1) != [])
    && (n >= 3 ==> JoinLength(Prefix(data, offset, n - 1)) <= 20)
  }

  /** The loop of `get_next_block`: the length it stops at, one past the
      block it returns, is the first that does not repeat or does not fit. */
  method Grow(data: seq<string>, offset: nat) returns (blockLen: nat)
    ensures Grown(data, offset, blockLen)
    ensures Repeats(data, offset, blockLen) == [] || JoinLength(Prefix(data, offset, blockLen)) > 20
    ensures blockLen == 1 <==> Repeats(data, offset, 1) == []
  {
    blockLen := 1;
    var block := Slice(data, offset, offset + blockLen);
    var positions := FindBlock(data, block, offset + blockLen);
    while positions != []
      invariant Grown(data, offset, blockLen) && (blockLen >= 2 ==> JoinLength(block) <= 20)
      invariant block == Prefix(data, offset, blockLen) && positions == Repeats(data, offset, blockLen)
      invariant Repeats(data, offset, 1) == [] ==> blockLen == 1
      decreases |data| - blockLen
    {
      RepeatsInside(data, offset, blockLen);
      blockLen := blockLen + 1;
      block := Slice(data, offset, offset + blockLen);
      if JoinLength(block) > 20 {
        break;
      }
      positions := FindBlock(data, block, offset + blockLen);
    }
  }

  /** A run that repeats after itself ends before the end of `data`. */
  lemma RepeatsInside(data: seq<string>, offset: nat, n: nat)
    requires Repeats(data, offset, n) != []
    ensures offset + n < |data| && |Prefix(data, offset, n)| == n
  {
    var r := Repeats(data, offset, n);
    var b := Prefix(data, offset, n);
    assert b != [];
    assert r == FindFrom(data, b, offset + n);
    FindFromSound(data, b, offset + n);
    assert offset + n <= r[0] && Matches(data, b, r[0]);
  }

  /** `data[:p] + data[p + blen:]`. */
  function Cut(data: seq<string>, p: nat, blen: nat): (r: seq<string>)
    ensures |r| <= |data|
    ensures p == 0 && data != [] && blen > 0 ==> |r| < |data|
  {
    Slice(data, 0, p) + Slice(data, p + blen, |data|)
  }

  /** A name of `compress` as a code point: 'A' is 65. */
  datatype Named = Named(code: nat, block: seq<string>)

  /** `sorted(positions + [0], reverse=True)`: the positions of `find_block`
      strictly increase and, after a non-empty block at offset 0, are all
      positive, so the descending order is the reversal followed by 0. */
  function Descending(positions: seq<nat>): (r: seq<nat>)
    ensures |r| == |positions| + 1 && r[|r| - 1] == 0
    ensures forall k :: 0 <= k < |positions| ==> r[k] == positions[|positions| - 1 - k]
    ensures (forall k :: 0 < k < |positions| ==> positions[k - 1] < positions[k]) && (forall k :: 0 <= k < |positions| ==> positions[k] > 0) ==>
              forall k :: 0 < k < |r| ==> r[k - 1] > r[k]
  {
    Reverse(positions) + [0]
  }

  function Reverse(xs: seq<nat>): (r: seq<nat>)
    ensures |r| == |xs| && forall k :: 0 <= k < |xs| ==> r[k] == xs[|xs| - 1 - k]
  {
    if xs == [] then [] else Reverse(xs[1..]) + [xs[0]]
  }

  /** `compress(data)`: each round names the next block 'A', 'B', … in
      discovery order and cuts the block out at offset 0 and at every repeat,
      from the back; a round always shortens the data, so the loop ends.
      Every named block is non-empty and, from two elements on, fits in 20
      characters. */
  method Compress(data: seq<string>) returns (blocks: seq<Named>)
    ensures |blocks| <= |data|
    ensures forall k :: 0 <= k < |blocks| ==> blocks[k].code == 65 + k
    ensures forall k :: 0 <= k < |blocks| ==> blocks[k].block != [] && (|blocks[k].block| >= 2 ==> JoinLength(blocks[k].block) <= 20)
  {
    var rest := data;
    var id := 65;
    blocks := [];
    var b, positions := GetNextBlock(rest, 0);
    while positions != []
      invariant id == 65 + |blocks| && |blocks| + |rest| <= |data|
      invariant forall k :: 0 <= k < |blocks| ==> blocks[k].code == 65 + k
      invariant forall k :: 0 <= k < |blocks| ==> blocks[k].block != [] && (|blocks[k].block| >= 2 ==> JoinLength(blocks[k].block) <= 20)
      invariant positions != [] ==> b != [] && |rest| > 0 && (|b| >= 2 ==> JoinLength(b) <= 20)
      decreases |rest|
    {
      blocks := blocks + [Named(id, b)];
      var blen := |b|;
      id := id + 1;
      var order := Descending(positions);
      ghost var before := rest;
      for i := 0 to |order|
        invariant |rest| <= |before|
        invariant i == |order| ==> |rest| < |before|
      {
        rest := Cut(rest, order[i], blen);
      }
      b, positions := GetNextBlock(rest, 0);
    }
  }

  // ---------------------------------------------------------------------------
  // The scaffold grid and the robot

  /** `Direction`, an Enum over the characters `^ v < >`. */
  datatype Direction = Up | Down | Left | Right

  /** The table of `turn_robot_left`. */
  function Left90(d: Direction): Direction
  {
    match d
    case Up => Left
    case Down => Right
    case Left => Down
    case Right => Up
  }

  /** The table of `turn_robot_right`. */
  function Right90(d: Direction): Direction
  {
    match d
    case Up => Right
    case Down => Left
    case Left => Up
    case Right => Down
  }

  /** The two turn tables undo each other. */
  lemma TurnsUndo(d: Direction)
    ensures Left90(Right90(d)) == d && Right90(Left90(d)) == d
    ensures Left90(d) != d && Right90(d) != d && Left90(d) != Right90(d)
  {
  }

  /** `k` steps from `p` facing `d` (the delta table: UP is -y). */
  function Walk(p: (int, int), d: Direction, k: int): (int, int)
  {
    match d
    case Up => (p.0, p.1 - k)
    case Down => (p.0, p.1 + k)
    case Left => (p.0 - k, p.1)
    case Right => (p.0 + k, p.1)
  }

  /** `Grid`: the camera image as rows of characters, never changed once
      built, and the robot's position and facing, which are. */
  class Grid {
    const grid: seq<seq<char>>
    const w: nat
    const h: nat
    var robotPos: (int, int)
    var robotDirection: Direction

    /** The image is a non-empty rectangle. */
    ghost predicate Valid()
    {
      h == |grid| >= 1 && w == |grid[0]| && forall y :: 0 <= y < h ==> |grid[y]| == w
    }

    constructor (grid: seq<seq<char>>, pos: (int, int), dir: Direction)
      requires |grid| >= 1 && forall y :: 0 <= y < |grid| ==> |grid[y]| == |grid[0]|
      ensures Valid() && this.grid == grid && robotPos == pos && robotDirection == dir
    {
      this.grid := grid;
      w := |grid[0]|;
      h := |grid|;
      robotPos := pos;
      robotDirection := dir;
    }

    /** `get_tile`: the character at (x, y), and nothing outside the image. */
    function GetTile(x: int, y: int): (t: Option<char>)
      requires Valid()
      ensures t.None? <==> !(0 <= x < w && 0 <= y < h)
      ensures t.Some? ==> t.value == grid[y][x]
    {
      if 0 <= x < w && 0 <= y < h then Some(grid[y][x]) else None
    }

    predicate Scaffold(x: int, y: int)
      requires Valid()
    {
      GetTile(x, y) == Some('#')
    }

    /** A junction: scaffold with scaffold on all four sides. */
    predicate IsJunction(x: int, y: int)
      requires Valid()
    {
      Scaffold(x, y) && Scaffold(x - 1, y) && Scaffold(x + 1, y) && Scaffold(x, y - 1) && Scaffold(x, y + 1)
    }

    /** A junction never lies on the edge of the image. */
    lemma JunctionIsInterior(x: int, y: int)
      requires Valid() && IsJunction(x, y)
      ensures 1 <= x < w - 1 && 1 <= y < h - 1
    {
      assert GetTile(x - 1, y).Some? && GetTile(x + 1, y).Some?;
      assert GetTile(x, y - 1).Some? && GetTile(x, y + 1).Some?;
    }

    /** Column-major order: by x, then by y. */
    static predicate Before(p: (int, int), q: (int, int))
    {
      p.0 < q.0 || (p.0 == q.0 && p.1 < q.1)
    }

    /** `jcts` holds exactly the junctions scanned before (x, y), in scan
        order. */
    ghost predicate Scanned(jcts: seq<(int, int)>, x: int, y: int)
      requires Valid()
    {
      && (forall p :: p in jcts ==> 0 <= p.0 < w && 0 <= p.1 < h && IsJunction(p.0, p.1) && Before(p, (x, y)))
      && (forall x', y' :: 0 <= x' < w && 0 <= y' < h && Before((x', y'), (x, y)) && IsJunction(x', y') ==> (x', y') in jcts)
      && (forall i :: 0 < i < |jcts| ==> Before(jcts[i - 1], jcts[i]))
    }

    /** Scanning cell (x, y) appends it exactly when it is a junction. */
    lemma ScanCell(jcts: seq<(int, int)>, x: int, y: int)
      requires Valid() && 0 <= x < w && 0 <= y < h && Scanned(jcts, x, y)
      ensures IsJunction(x, y) ==> Scanned(jcts + [(x, y)], x, y + 1)
      ensures !IsJunction(x, y) ==> Scanned(jcts, x, y + 1)
    {
      if IsJunction(x, y) && jcts != [] {
        assert jcts[|jcts| - 1] in jcts;
      }
    }

    /** A finished column is the start of the next. */
    lemma NextColumn(jcts: seq<(int, int)>, x: int)
      requires Valid() && Scanned(jcts, x, h)
      ensures Scanned(jcts, x + 1, 0)
    {
    }

    /** `get_junctions`: exactly the junctions, column by column and top to
        bottom within a column. */
    method GetJunctions() returns (jcts: seq<(int, int)>)
      requires Valid()
      ensures forall p :: p in jcts ==> 0 <= p.0 < w && 0 <= p.1 < h && IsJunction(p.0, p.1)
      ensures forall x, y :: 0 <= x < w && 0 <= y < h && IsJunction(x, y) ==> (x, y) in jcts
      ensures forall i :: 0 < i < |jcts| ==> jcts[i - 1].0 < jcts[i].0 || (jcts[i - 1].0 == jcts[i].0 && jcts[i - 1].1 < jcts[i].1)
    {
      jcts := [];
      for x := 0 to w
        invariant Scanned(jcts, x, 0)
      {
        for y := 0 to h
          invariant Scanned(jcts, x, y)
        {
          ScanCell(jcts, x, y);
          if IsJunction(x, y) {
            jcts := jcts + [(x, y)];
          }
        }
        NextColumn(jcts, x);
      }
    }

    /** The tile next to the robot in direction `d` is scaffold. */
    predicate OpenTowards(d: Direction)
      requires Valid()
      reads this
    {
      var q := Walk(robotPos, d, 1);
      Scaffold(q.0, q.1)
    }

    /** `get_next_robot_tile`. */
    function NextRobotTile(): (t: Option<char>)
      requires Valid()
      reads this
      ensures t == GetTile(Walk(robotPos, robotDirection, 1).0, Walk(robotPos, robotDirection, 1).1)
    {
      var q := Walk(robotPos, robotDirection, 1);
      GetTile(q.0, q.1)
    }

    /** `robot_can_move`. */
    predicate RobotCanMove()
      requires Valid()
      reads this
    {
      NextRobotTile() == Some('#')
    }

    method TurnRobotLeft()
      modifies this`robotDirection
      ensures robotDirection == Left90(old(robotDirection))
    {
      robotDirection := Left90(robotDirection);
    }

    method TurnRobotRight()
      modifies this`robotDirection
      ensures robotDirection == Right90(old(robotDirection))
    {
      robotDirection := Right90(robotDirection);
    }

    /** `step_robot`: one unit in the facing direction. */
    method StepRobot()
      modifies this`robotPos
      ensures robotPos == Walk(old(robotPos), robotDirection, 1)
    {
      robotPos := Walk(robotPos, robotDirection, 1);
    }

    /** `try_turn`: left if that way is scaffold, else right if that way is,
        else the original facing and no turn. */
    method TryTurn() returns (r: Option<Direction>)
      requires Valid()
      modifies this`robotDirection
      ensures OpenTowards(Left90(old(robotDirection))) ==> r == Some(Left) && robotDirection == Left90(old(robotDirection))
      ensures !OpenTowards(Left90(old(robotDirection))) && OpenTowards(Right90(old(robotDirection))) ==>
                r == Some(Right) && robotDirection == Right90(old(robotDirection))
      ensures !OpenTowards(Left90(old(robotDirection))) && !OpenTowards(Right90(old(robotDirection))) ==>
                r == None && robotDirection == old(robotDirection)
      ensures r.Some? ==> RobotCanMove()
    {
      var origDirection := robotDirection;
      TurnRobotLeft();
      if RobotCanMove() {
        return Some(Left);
      }
      robotDirection := origDirection;
      TurnRobotRight();
      if RobotCanMove() {
        return Some(Right);
      }
      robotDirection := origDirection;
      r := None;
    }

    /** How far the robot can still go before leaving the image. */
    function Room(): int
      reads this
    {
      match robotDirection
      case Up => robotPos.1
      case Down => h - robotPos.1
      case Left => robotPos.0
      case Right => w - robotPos.0
    }

    /** `move_robot_straight`: walks ahead while the next tile is scaffold and
        returns the number of steps; every tile passed is scaffold and the
        robot ends facing a tile that is not. */
    method MoveRobotStraight() returns (n: nat)
      requires Valid()
      modifies this`robotPos
      ensures robotPos == Walk(old(robotPos), robotDirection, n)
      ensures forall k :: 1 <= k <= n ==> Scaffold(Walk(old(robotPos), robotDirection, k).0, Walk(old(robotPos), robotDirection, k).1)
      ensures !RobotCanMove()
    {
      n := 0;
      while RobotCanMove()
        invariant robotPos == Walk(old(robotPos), robotDirection, n)
        invariant forall k :: 1 <= k <= n ==> Scaffold(Walk(old(robotPos), robotDirection, k).0, Walk(old(robotPos), robotDirection, k).1)
        decreases Room()
      {
        StepRobot();
        n := n + 1;
      }
    }
  }
}
