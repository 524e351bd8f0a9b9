/** Day 15 (aoc/d15.py): the repair droid's maze. The droid explores by
    wall-following (turn left after a wall, right after a step), recording
    tiles in a dictionary; a breadth-first walk over the recorded walkable
    tiles then gives each one a distance from a start tile. The program run
    that produces the responses is left outside the model: each response is
    a parameter of the step that handles it. */
module Day15 {
  import opened Wrappers

  type Pos = (int, int)

  // `Tile`.
  const UNKNOWN: int := 0
  const EMPTY: int := 1
  const WALL: int := 2
  const OXYGEN: int := 3

  /** `Direction`, an IntEnum 1..4 that is also the program's input code. */
  datatype Direction = Up | Down | Left | Right

  function Code(d: Direction): int
  {
    match d
    case Up => 1
    case Down => 2
    case Left => 3
    case Right => 4
  }

  /** What the source raises: a response list longer than one or empty, a
      response other than 0, 1, 2, a start tile that is not walkable
      (`list.remove`), a missing oxygen position, and an oxygen tile without a
      distance. */
  datatype Error = TooLong(out: seq<int>) | NoResponse | InvalidOutput(v: int) | NotWalkable(p: Pos) | NoOxygen | KeyError(p: Pos)

  function Abs(n: int): nat
  {
    if n < 0 then -n else n
  }

  function Manhattan(p: Pos, q: Pos): nat
  {
    Abs(p.0 - q.0) + Abs(p.1 - q.1)
  }

  predicate Adjacent(p: Pos, q: Pos)
  {
    Manhattan(p, q) == 1
  }

  lemma AdjacentSymmetric(p: Pos, q: Pos)
    ensures Adjacent(p, q) == Adjacent(q, p)
  {
  }

  /** `Point.translate`: UP is -y in this file. */
  function Translate(p: Pos, d: Direction): (q: Pos)
    ensures Adjacent(p, q)
  {
    match d
    case Up => (p.0, p.1 - 1)
    case Down => (p.0, p.1 + 1)
    case Left => (p.0 - 1, p.1)
    case Right => (p.0 + 1, p.1)
  }

  /** `turn_right`. */
  function Right90(d: Direction): Direction
  {
    match d
    case Up => Right
    case Down => Left
    case Left => Up
    case Right => Down
  }

  /** `turn_left`. */
  function Left90(d: Direction): Direction
  {
    match d
    case Up => Left
    case Down => Right
    case Left => Down
    case Right => Up
  }

  /** The two turns undo each other, and the four directions lead to the four
      distinct neighbours; translating after turning round comes back. */
  lemma TurnsAndMoves(p: Pos, d: Direction)
    ensures Left90(Right90(d)) == d && Right90(Left90(d)) == d
    ensures Translate(Translate(p, d), Right90(Right90(d))) == p
    ensures Translate(p, d) != Translate(p, Right90(d)) && Translate(p, d) != Translate(p, Left90(d))
  {
  }

  // ---------------------------------------------------------------------------
  // Lists of positions

  predicate Distinct(s: seq<Pos>)
  {
    forall i, j :: 0 <= i < j < |s| ==> s[i] != s[j]
  }

  /** `get_neighbors(p, points)`: the points at distance 1 from `p`, in the
      order of `points`. */
  function Neighbors(p: Pos, points: seq<Pos>): (r: seq<Pos>)
    ensures |r| <= |points|
    ensures forall x :: x in r <==> x in points && Adjacent(p, x)
    ensures Distinct(points) ==> Distinct(r)
  {
    if points == [] then []
    else
      var rest := Neighbors(p, points[1..]);
      if Adjacent(p, points[0]) then [points[0]] + rest else rest
  }

  /** Filtering two runs of points one after the other is filtering their
      concatenation: the neighbours keep the order of `points`. */
  lemma {:induction false} NeighborsAppend(p: Pos, a: seq<Pos>, b: seq<Pos>)
    ensures Neighbors(p, a + b) == Neighbors(p, a) + Neighbors(p, b)
  {
    if a != [] {
      assert (a + b)[0] == a[0] && (a + b)[1..] == a[1..] + b;
      NeighborsAppend(p, a[1..], b);
      var head := if Adjacent(p, a[0]) then [a[0]] else [];
      calc {
        Neighbors(p, a + b);
        head + Neighbors(p, a[1..] + b);
        head + (Neighbors(p, a[1..]) + Neighbors(p, b));
        { ConcatAssoc(head, Neighbors(p, a[1..]), Neighbors(p, b)); }
        (head + Neighbors(p, a[1..])) + Neighbors(p, b);
      }
    } else {
      assert a + b == b;
    }
  }

  /** `list.remove(x)`: drops the first occurrence. */
  function Remove(s: seq<Pos>, x: Pos): (r: seq<Pos>)
    ensures x in s ==> |r| == |s| - 1
    ensures forall y :: y in r ==> y in s
    ensures Distinct(s) ==> Distinct(r) && forall y :: y in r <==> y in s && y != x
  {
    if s == [] then []
    else
      DistinctTail(s);
      if s[0] == x then s[1..]
      else [s[0]] + Remove(s[1..], x)
  }

  lemma DistinctTail(s: seq<Pos>)
    requires s != []
    ensures Distinct(s) ==> Distinct(s[1..]) && s[0] !in s[1..]
  {
    if Distinct(s) {
      forall i, j | 0 <= i < j < |s[1..]|
        ensures s[1..][i] != s[1..][j]
      {
        assert s[1..][i] == s[i + 1] && s[1..][j] == s[j + 1];
      }
    }
  }

  /** The positions of `xs`, removed one after another. */
  function RemoveAll(s: seq<Pos>, xs: seq<Pos>): (r: seq<Pos>)
    decreases |xs|
    ensures forall y :: y in r ==> y in s
    ensures Distinct(s) ==> Distinct(r) && forall y :: y in r <==> y in s && y !in xs
  {
    if xs == [] then s else RemoveAll(Remove(s, xs[0]), xs[1..])
  }

  // ---------------------------------------------------------------------------
  // The droid and the map

  /** `Robot`: a position and a facing. */
  class Robot {
    var pos: Pos
    var direction: Direction

    constructor (x: int, y: int, direction: Direction)
      ensures pos == (x, y) && this.direction == direction
    {
      pos := (x, y);
      this.direction := direction;
    }

    /** `next_pos`. */
    function NextPos(): (q: Pos)
      reads this
      ensures Adjacent(pos, q)
    {
      Translate(pos, direction)
    }

    method SetPos(p: Pos)
      modifies this
      ensures pos == p && direction == old(direction)
    {
      pos := p;
    }

    method TurnRight()
      modifies this
      ensures direction == Right90(old(direction)) && pos == old(pos)
    {
      direction := Right90(direction);
    }

    method TurnLeft()
      modifies this
      ensures direction == Left90(old(direction)) && pos == old(pos)
    {
      direction := Left90(direction);
    }
  }

  /** `Map`: the tiles recorded so far. The dictionary keeps its insertion
      order, which `order` records; the origin starts out EMPTY. */
  class Map {
    var tiles: map<Pos, int>
    var order: seq<Pos>
    var oxygen: Option<Pos>
    const origin: Pos

    ghost predicate Valid()
      reads this
    {
      Distinct(order) && forall p :: p in tiles <==> p in order
    }

    constructor ()
      ensures Valid() && tiles == map[(0, 0) := EMPTY] && order == [(0, 0)]
      ensures oxygen == None && origin == (0, 0)
    {
      tiles := map[(0, 0) := EMPTY];
      order := [(0, 0)];
      oxygen := None;
      origin := (0, 0);
    }

    /** `set_tile`: a new key goes to the end of the order, an existing one
        keeps its place. */
    method SetTile(x: int, y: int, tile: int)
      requires Valid()
      modifies this`tiles, this`order
      ensures Valid()
      ensures tiles == old(tiles)[(x, y) := tile]
      ensures order == if (x, y) in old(tiles) then old(order) else old(order) + [(x, y)]
    {
      if (x, y) !in tiles {
        order := order + [(x, y)];
      }
      tiles := tiles[(x, y) := tile];
    }

    /** `get_tile`: unrecorded tiles read UNKNOWN. */
    function GetTile(x: int, y: int): (t: int)
      reads this
      ensures (x, y) !in tiles ==> t == UNKNOWN
      ensures (x, y) in tiles ==> t == tiles[(x, y)]
    {
      if (x, y) in tiles then tiles[(x, y)] else UNKNOWN
    }

    /** `get_walkable_tile_positions`: the recorded keys that are not walls, in
        the dictionary's order. */
    function Walkable(): (r: seq<Pos>)
      reads this
      requires Valid()
      ensures Distinct(r)
      ensures forall p :: p in r <==> p in tiles && tiles[p] != WALL
    {
      NotWalls(order, tiles)
    }
  }

  function NotWalls(keys: seq<Pos>, tiles: map<Pos, int>): (r: seq<Pos>)
    requires forall p :: p in keys ==> p in tiles
    ensures forall p :: p in r <==> p in keys && tiles[p] != WALL
    ensures Distinct(keys) ==> Distinct(r)
  {
    if keys == [] then []
    else
      var rest := NotWalls(keys[1..], tiles);
      if tiles[keys[0]] != WALL then [keys[0]] + rest else rest
  }

  /** The body of the loop of `generate_floor` once the program has answered:
      exactly one response is expected. A wall (0) is recorded ahead and the
      droid stays and turns left; a step (1) or the oxygen system (2) is
      recorded ahead, the droid moves there and turns right, and 2 also
      records the oxygen position; any other response raises. */
  method Respond(floor: Map, robot: Robot, out: seq<int>) returns (r: Result<(), Error>)
    requires floor.Valid()
    modifies floor, robot
    ensures floor.Valid()
    ensures |out| > 1 ==> r == Err(TooLong(out)) && unchanged(floor, robot)
    ensures out == [] ==> r == Err(NoResponse) && unchanged(floor, robot)
    ensures |out| == 1 && out[0] !in {0, 1, 2} ==> r == Err(InvalidOutput(out[0])) && unchanged(floor, robot)
    ensures |out| == 1 && out[0] in {0, 1, 2} ==>
              var ahead := Translate(old(robot.pos), old(robot.direction));
              var tile := if out[0] == 0 then WALL else if out[0] == 1 then EMPTY else OXYGEN;
              && r == Ok(())
              && floor.tiles == old(floor.tiles)[ahead := tile]
              && floor.oxygen == (if out[0] == 2 then Some(ahead) else old(floor.oxygen))
              && robot.pos == (if out[0] == 0 then old(robot.pos) else ahead)
              && robot.direction == (if out[0] == 0 then Left90(old(robot.direction)) else Right90(old(robot.direction)))
  {
    if |out| > 1 {
      return Err(TooLong(out));
    }
    if out == [] {
      return Err(NoResponse);
    }
    var response := out[0];
    var next := robot.NextPos();
    if response == 0 {
      floor.SetTile(next.0, next.1, WALL);
      robot.TurnLeft();
    } else if response == 1 {
      floor.SetTile(next.0, next.1, EMPTY);
      robot.SetPos(next);
      robot.TurnRight();
    } else if response == 2 {
      floor.SetTile(next.0, next.1, OXYGEN);
      floor.oxygen := Some(next);
      robot.SetPos(next);
      robot.TurnRight();
    } else {
      return Err(InvalidOutput(response));
    }
    r := Ok(());
  }

  // ---------------------------------------------------------------------------
  // Distances

  /** The distances recorded for the adjacent keys of `tile`, in key order:
      the generator inside `min(...)`. */
  function AdjacentDistances(keys: seq<Pos>, dist: map<Pos, nat>, tile: Pos): (r: seq<nat>)
    requires forall k :: k in keys ==> k in dist
    ensures forall v :: v in r ==> exists k :: k in keys && Adjacent(tile, k) && dist[k] == v
    ensures forall k :: k in keys && Adjacent(tile, k) ==> dist[k] in r
    ensures (exists k :: k in keys && Adjacent(tile, k)) ==> r != []
  {
    if keys == [] then []
    else
      var rest := AdjacentDistances(keys[1..], dist, tile);
      if Adjacent(tile, keys[0]) then [dist[keys[0]]] + rest else rest
  }

  /** `min` of a non-empty list. */
  function Min(xs: seq<nat>): (m: nat)
    requires xs != []
    ensures m in xs && forall k :: 0 <= k < |xs| ==> m <= xs[k]
  {
    if |xs| == 1 then xs[0]
    else
      var m := Min(xs[1..]);
      assert forall k :: 1 <= k < |xs| ==> xs[1..][k - 1] == xs[k];
      if xs[0] < m then xs[0] else m
  }

  /** Every recorded distance other than the start's is one more than that of
      an adjacent recorded tile: each distance is the length of a walk of
      adjacent recorded tiles back to the start. */
  predicate Chained(dist: map<Pos, nat>, start: Pos)
  {
    forall k :: k in dist && k != start ==> exists j :: j in dist && Adjacent(k, j) && dist[k] == dist[j] + 1
  }

  /** Adjacent recorded distances differ by at most one. */
  ghost predicate Tight(dist: map<Pos, nat>)
  {
    forall j, k :: j in dist && k in dist && Adjacent(j, k) ==> dist[k] <= dist[j] + 1
  }

  /** The recorded tiles are closed under adjacency within `walkable`. */
  predicate Closed(dist: map<Pos, nat>, walkable: seq<Pos>)
  {
    forall k, w :: k in dist && w in walkable && Adjacent(k, w) ==> w in dist
  }

  /** `get_distances_from(point, floor)` with the floor's walkable tiles: a
      breadth-first walk whose queue `todo` takes each tile out of
      `remaining` as it is enqueued, so that no tile is enqueued twice. Each
      dequeued tile gets one more than the least distance of its adjacent
      recorded tiles; there always is one, so `min` never sees an empty list.
      The queue holds tiles of at most two consecutive levels, nearer ones
      first, so each tile is recorded at its shortest distance: the result
      holds every tile a walk from the start reaches, each at the fewest
      moves of such a walk. The start not being walkable raises. */
  method GetDistancesFrom(start: Pos, walkable: seq<Pos>) returns (r: Result<(map<Pos, nat>, seq<Pos>), Error>)
    requires Distinct(walkable)
    ensures r.Err? <==> start !in walkable
    ensures r.Ok? ==>
              var (dist, keys) := r.value;
              && IsDistances(dist, start, walkable)
              && (forall k :: k in dist <==> k in keys) && Distinct(keys)
              && (forall k :: k in dist ==> IsShortest(dist[k], walkable, start, k))
              && (forall w, k :: IsWalk(w, walkable, start, k) ==> k in dist)
  {
    if start !in walkable {
      return Err(NotWalkable(start));
    }
    var remaining := Remove(walkable, start);
    var dist: map<Pos, nat> := map[start := 0];
    var keys := [start];
    var todo := Neighbors(start, remaining);
    remaining := RemoveEach(remaining, todo);
    FrontierStarts(start, walkable);
    ghost var now, next, level := [], todo, 0;
    while todo != []
      invariant Frontier(walkable, start, remaining, todo, dist, keys)
      invariant todo == now + next && Levels(now, next, dist, level)
      decreases 2 * |remaining| + |todo|
    {
      var tile := todo[0];
      ghost var j := HeadNeighbor(walkable, start, remaining, todo, dist, keys);
      var near := AdjacentDistances(keys, dist, tile);
      var d := Min(near) + 1;
      MinIsLeast(keys, dist, tile, near, d);
      VisitKeeps(walkable, start, remaining, todo, dist, keys, d);
      assert todo[0] in todo;
      now, next, level := VisitLevels(walkable, remaining, todo, dist, now, next, level, d);
      todo := todo[1..];
      dist := dist[tile := d];
      keys := keys + [tile];
      var n := Neighbors(tile, remaining);
      remaining, todo := MoveEach(remaining, todo, n);
    }
    FrontierEnds(walkable, start, remaining, dist, keys);
    forall k | k in dist
      ensures IsShortest(dist[k], walkable, start, k)
    {
      DistancesAreShortest(dist, start, walkable, k, dist[k]);
    }
    forall w, k | IsWalk(w, walkable, start, k)
      ensures k in dist
    {
      WalkBound(dist, start, walkable, w, k);
    }
    r := Ok((dist, keys));
  }

  /** `min(...) + 1` is at most one more than every adjacent recorded
      distance, and exactly one more than one of them. */
  lemma MinIsLeast(keys: seq<Pos>, dist: map<Pos, nat>, tile: Pos, near: seq<nat>, d: nat)
    requires (forall k :: k in dist <==> k in keys) && near == AdjacentDistances(keys, dist, tile)
    requires near != [] && d == Min(near) + 1
    ensures exists j :: j in dist && Adjacent(tile, j) && d == dist[j] + 1
    ensures forall j :: j in dist && Adjacent(tile, j) ==> d <= dist[j] + 1
  {
    forall j | j in dist && Adjacent(tile, j)
      ensures d <= dist[j] + 1
    {
      var i :| 0 <= i < |near| && near[i] == dist[j];
    }
  }

  /** The queue in breadth-first order, split as `now + next`: every recorded
      distance is at most `level`; a tile in `now` is one move from a tile
      recorded at `level - 1` and from none nearer; a tile in `next` has no
      recorded neighbour below `level`. */
  ghost predicate Levels(now: seq<Pos>, next: seq<Pos>, dist: map<Pos, nat>, level: nat)
  {
    && Tight(dist)
    && (forall k :: k in dist ==> dist[k] <= level)
    && (forall x, k :: x in now && k in dist && Adjacent(x, k) ==> level <= dist[k] + 1)
    && (forall x :: x in now ==> exists k :: k in dist && Adjacent(x, k) && dist[k] + 1 == level)
    && (forall x, k :: x in next && k in dist && Adjacent(x, k) ==> level <= dist[k])
  }

  /** One pass of the loop keeps the queue in breadth-first order: the head
      of `now` is recorded at `level`; once `now` is empty, the head of `next`
      is recorded at `level + 1` and `next` becomes the current level. The new
      neighbours go to the next level. */
  lemma VisitLevels(walkable: seq<Pos>, remaining: seq<Pos>, todo: seq<Pos>, dist: map<Pos, nat>,
                    now: seq<Pos>, next: seq<Pos>, level: nat, d: nat)
      returns (now': seq<Pos>, next': seq<Pos>, level': nat)
    requires todo != [] && todo[0] !in dist && Queued(todo, dist)
    requires Explored(walkable, remaining, dist) && forall x :: x in remaining ==> x in walkable
    requires todo == now + next && Levels(now, next, dist, level)
    requires exists j :: j in dist && Adjacent(todo[0], j) && d == dist[j] + 1
    requires forall j :: j in dist && Adjacent(todo[0], j) ==> d <= dist[j] + 1
    ensures var n := Neighbors(todo[0], remaining);
            && now' + next' == todo[1..] + n
            && d == level'
            && Levels(now', next', dist[todo[0] := d], level')
  {
    var tile := todo[0];
    var n := Neighbors(tile, remaining);
    NeighborsIsolated(walkable, remaining, dist, tile);
    if now != [] {
      assert tile in now;
      now', next', level' := now[1..], next + n, level;
      TailConcat(now, next, n);
      LevelsSameLevel(now, next, dist, level, tile, n, d);
    } else {
      assert tile in next;
      now', next', level' := next[1..], n, level + 1;
      assert todo[1..] == next[1..];
      LevelsNextLevel(next, todo, dist, level, tile, n, d);
    }
  }

  lemma ConcatAssoc(a: seq<Pos>, b: seq<Pos>, c: seq<Pos>)
    ensures a + (b + c) == (a + b) + c
  {
  }

  lemma TailConcat(a: seq<Pos>, b: seq<Pos>, c: seq<Pos>)
    requires a != []
    ensures (a + b)[1..] + c == a[1..] + (b + c)
  {
  }

  /** No tile recorded so far is next to a tile still in `remaining`. */
  lemma NeighborsIsolated(walkable: seq<Pos>, remaining: seq<Pos>, dist: map<Pos, nat>, tile: Pos)
    requires Explored(walkable, remaining, dist) && forall x :: x in remaining ==> x in walkable
    ensures forall x, k :: x in Neighbors(tile, remaining) && k in dist ==> !Adjacent(k, x)
  {
  }

  /** Recording the head of `now` at `level` keeps the levels. */
  lemma LevelsSameLevel(now: seq<Pos>, next: seq<Pos>, dist: map<Pos, nat>, level: nat, tile: Pos, n: seq<Pos>, d: nat)
    requires Levels(now, next, dist, level) && now != [] && tile == now[0] && tile !in dist
    requires forall x, k :: x in n && k in dist ==> !Adjacent(k, x)
    requires exists j :: j in dist && Adjacent(tile, j) && d == dist[j] + 1
    requires forall j :: j in dist && Adjacent(tile, j) ==> d <= dist[j] + 1
    ensures d == level && Levels(now[1..], next + n, dist[tile := d], level)
  {
    var dist' := dist[tile := d];
    assert tile in now;
    var j :| j in dist && Adjacent(tile, j) && d == dist[j] + 1;
    var i :| i in dist && Adjacent(tile, i) && dist[i] + 1 == level;
    TightAdd(dist, tile, d);
    forall x | x in now[1..]
      ensures exists k :: k in dist' && Adjacent(x, k) && dist'[k] + 1 == level
    {
      assert x in now;
      var k :| k in dist && Adjacent(x, k) && dist[k] + 1 == level;
      assert dist'[k] == dist[k];
    }
    forall x, k | x in now[1..] && k in dist' && Adjacent(x, k)
      ensures level <= dist'[k] + 1
    {
      assert x in now;
    }
    forall x, k | x in next + n && k in dist' && Adjacent(x, k)
      ensures level <= dist'[k]
    {
      AdjacentSymmetric(x, k);
    }
  }

  /** With `now` empty, recording the head of `next` at `level + 1` makes
      the rest of `next` the current level and the new neighbours the next. */
  lemma LevelsNextLevel(next: seq<Pos>, todo: seq<Pos>, dist: map<Pos, nat>, level: nat, tile: Pos, n: seq<Pos>, d: nat)
    requires Levels([], next, dist, level) && todo == next && next != [] && tile == next[0] && tile !in dist
    requires Queued(todo, dist)
    requires forall x, k :: x in n && k in dist ==> !Adjacent(k, x)
    requires exists j :: j in dist && Adjacent(tile, j) && d == dist[j] + 1
    requires forall j :: j in dist && Adjacent(tile, j) ==> d <= dist[j] + 1
    ensures d == level + 1 && Levels(next[1..], n, dist[tile := d], level + 1)
  {
    var dist' := dist[tile := d];
    assert tile in next;
    var j :| j in dist && Adjacent(tile, j) && d == dist[j] + 1;
    TightAdd(dist, tile, d);
    forall x | x in next[1..]
      ensures exists k :: k in dist' && Adjacent(x, k) && dist'[k] + 1 == level + 1
    {
      assert x in next && x in todo;
      var k :| k in dist && Adjacent(x, k);
      assert dist'[k] == dist[k];
    }
    forall x, k | x in next[1..] && k in dist' && Adjacent(x, k)
      ensures level + 1 <= dist'[k] + 1
    {
      assert x in next;
    }
    forall x, k | x in n && k in dist' && Adjacent(x, k)
      ensures level + 1 <= dist'[k]
    {
      AdjacentSymmetric(x, k);
    }
  }

  /** A new tile recorded within one of each adjacent distance keeps the
      distances tight. */
  lemma TightAdd(dist: map<Pos, nat>, tile: Pos, d: nat)
    requires Tight(dist) && tile !in dist
    requires forall j :: j in dist && Adjacent(tile, j) ==> d <= dist[j] + 1 && dist[j] <= d + 1
    ensures Tight(dist[tile := d])
  {
    var dist' := dist[tile := d];
    forall j, k | j in dist' && k in dist' && Adjacent(j, k)
      ensures dist'[k] <= dist'[j] + 1
    {
      AdjacentSymmetric(j, k);
    }
  }

  /** `remaining`, `todo` and the recorded keys split the walkable tiles,
      each list without repeats. */
  ghost predicate Partition(walkable: seq<Pos>, remaining: seq<Pos>, todo: seq<Pos>, dist: map<Pos, nat>, keys: seq<Pos>)
  {
    && Distinct(remaining) && Distinct(todo) && Distinct(keys)
    && (forall k :: k in dist <==> k in keys)
    && (forall x :: x in remaining ==> x in walkable && x !in dist && x !in todo)
    && (forall x :: x in todo ==> x in walkable && x !in dist)
    && (forall x :: x in walkable ==> x in remaining || x in todo || x in dist)
    && (forall k :: k in dist ==> k in walkable)
  }

  /** Every queued tile has a recorded neighbour, so its `min` is defined. */
  ghost predicate Queued(todo: seq<Pos>, dist: map<Pos, nat>)
  {
    forall x :: x in todo ==> exists k :: k in dist && Adjacent(x, k)
  }

  /** No recorded tile has a walkable neighbour still in `remaining`. */
  ghost predicate Explored(walkable: seq<Pos>, remaining: seq<Pos>, dist: map<Pos, nat>)
  {
    forall k, w :: k in dist && w in walkable && Adjacent(k, w) ==> w !in remaining
  }

  /** The loop invariant of the walk. */
  ghost predicate Frontier(walkable: seq<Pos>, start: Pos, remaining: seq<Pos>, todo: seq<Pos>, dist: map<Pos, nat>, keys: seq<Pos>)
  {
    && Partition(walkable, remaining, todo, dist, keys)
    && start in dist && dist[start] == 0
    && Chained(dist, start)
    && Queued(todo, dist)
    && Explored(walkable, remaining, dist)
  }

  /** `for x in xs: remaining.remove(x)`. */
  method RemoveEach(remaining: seq<Pos>, xs: seq<Pos>) returns (r: seq<Pos>)
    ensures r == RemoveAll(remaining, xs)
  {
    r := remaining;
    for i := 0 to |xs|
      invariant r == RemoveAll(remaining, xs[..i])
    {
      r := Remove(r, xs[i]);
      assert xs[..i + 1] == xs[..i] + [xs[i]];
      RemoveAllSnoc(remaining, xs[..i], xs[i]);
    }
    assert xs[..|xs|] == xs;
  }

  /** `for x in n: remaining.remove(x); todo.append(x)`. */
  method MoveEach(remaining: seq<Pos>, todo: seq<Pos>, n: seq<Pos>) returns (remaining': seq<Pos>, todo': seq<Pos>)
    ensures remaining' == RemoveAll(remaining, n) && todo' == todo + n
  {
    remaining', todo' := remaining, todo;
    for i := 0 to |n|
      invariant remaining' == RemoveAll(remaining, n[..i]) && todo' == todo + n[..i]
    {
      remaining' := Remove(remaining', n[i]);
      todo' := todo' + [n[i]];
      assert n[..i + 1] == n[..i] + [n[i]];
      RemoveAllSnoc(remaining, n[..i], n[i]);
    }
    assert n[..|n|] == n;
  }

  /** The head of the queue has a recorded neighbour. */
  lemma HeadNeighbor(walkable: seq<Pos>, start: Pos, remaining: seq<Pos>, todo: seq<Pos>, dist: map<Pos, nat>, keys: seq<Pos>) returns (k: Pos)
    requires Frontier(walkable, start, remaining, todo, dist, keys) && todo != []
    ensures k in keys && k in dist && Adjacent(todo[0], k)
  {
    assert todo[0] in todo;
    k :| k in dist && Adjacent(todo[0], k);
  }

  /** With the queue empty, the recorded keys are closed under adjacency. */
  lemma FrontierEnds(walkable: seq<Pos>, start: Pos, remaining: seq<Pos>, dist: map<Pos, nat>, keys: seq<Pos>)
    requires Frontier(walkable, start, remaining, [], dist, keys) && Tight(dist)
    ensures IsDistances(dist, start, walkable) && (forall k :: k in dist <==> k in keys) && Distinct(keys)
  {
    forall k, w | k in dist && w in walkable && Adjacent(k, w)
      ensures w in dist
    {
      assert w !in remaining;
    }
  }

  /** The start is recorded at 0 and its walkable neighbours are queued. */
  lemma FrontierStarts(start: Pos, walkable: seq<Pos>)
    requires Distinct(walkable) && start in walkable
    ensures var r0 := Remove(walkable, start);
            var todo := Neighbors(start, r0);
            Frontier(walkable, start, RemoveAll(r0, todo), todo, map[start := 0], [start])
  {
    var r0 := Remove(walkable, start);
    var todo := Neighbors(start, r0);
    var remaining := RemoveAll(r0, todo);
    var dist: map<Pos, nat> := map[start := 0];
    forall x | x in walkable
      ensures x in remaining || x in todo || x in dist
    {
    }
    forall x | x in todo
      ensures exists k :: k in dist && Adjacent(x, k)
    {
      AdjacentSymmetric(start, x);
    }
  }

  lemma VisitPartition(walkable: seq<Pos>, remaining: seq<Pos>, todo: seq<Pos>, dist: map<Pos, nat>, keys: seq<Pos>, d: nat)
    requires Partition(walkable, remaining, todo, dist, keys) && todo != []
    ensures var n := Neighbors(todo[0], remaining);
            && Partition(walkable, RemoveAll(remaining, n), todo[1..] + n, dist[todo[0] := d], keys + [todo[0]])
            && |RemoveAll(remaining, n)| == |remaining| - |n|
  {
    var tile := todo[0];
    var n := Neighbors(tile, remaining);
    var remaining' := RemoveAll(remaining, n);
    var todo' := todo[1..] + n;
    var dist' := dist[tile := d];
    RemoveAllSize(remaining, n);
    DistinctTail(todo);
    DistinctConcat(todo[1..], n);
    DistinctConcat(keys, [tile]);
    assert tile in todo;
    forall x | x in walkable
      ensures x in remaining' || x in todo' || x in dist'
    {
      if x in remaining && x !in remaining' {
        assert x in n;
      }
      if x in todo && x != tile {
        assert x in todo[1..];
      }
    }
    forall x | x in todo'
      ensures x in walkable && x !in dist'
    {
      if x in todo[1..] {
        assert x in todo && x != tile;
      }
    }
  }

  lemma VisitChained(dist: map<Pos, nat>, start: Pos, tile: Pos, d: nat)
    requires Chained(dist, start) && start in dist && tile !in dist
    requires exists j :: j in dist && Adjacent(tile, j) && d == dist[j] + 1
    ensures Chained(dist[tile := d], start)
  {
    var dist' := dist[tile := d];
    forall k | k in dist' && k != start
      ensures exists j :: j in dist' && Adjacent(k, j) && dist'[k] == dist'[j] + 1
    {
      if k == tile {
        var j :| j in dist && Adjacent(tile, j) && d == dist[j] + 1;
        assert j in dist' && dist'[j] == dist[j];
      } else {
        var j :| j in dist && Adjacent(k, j) && dist[k] == dist[j] + 1;
        assert j in dist' && dist'[j] == dist[j];
      }
    }
  }

  lemma VisitQueued(todo: seq<Pos>, remaining: seq<Pos>, dist: map<Pos, nat>, d: nat)
    requires Queued(todo, dist) && todo != []
    ensures Queued(todo[1..] + Neighbors(todo[0], remaining), dist[todo[0] := d])
  {
    var tile := todo[0];
    var n := Neighbors(tile, remaining);
    var dist' := dist[tile := d];
    forall x | x in todo[1..] + n
      ensures exists k :: k in dist' && Adjacent(x, k)
    {
      if x in n {
        assert Adjacent(x, tile);
      } else {
        assert x in todo;
        var k :| k in dist && Adjacent(x, k);
        assert k in dist';
      }
    }
  }

  lemma VisitExplored(walkable: seq<Pos>, remaining: seq<Pos>, dist: map<Pos, nat>, tile: Pos, d: nat)
    requires Explored(walkable, remaining, dist) && Distinct(remaining)
    ensures Explored(walkable, RemoveAll(remaining, Neighbors(tile, remaining)), dist[tile := d])
  {
  }

  /** One turn of the walk keeps the invariant: the head of the queue is
      recorded at `d`, one more than an adjacent recorded distance, and its
      neighbours still in `remaining` move to the back of the queue. The
      measure `2 * |remaining| + |todo|` drops. */
  lemma VisitKeeps(walkable: seq<Pos>, start: Pos, remaining: seq<Pos>, todo: seq<Pos>, dist: map<Pos, nat>, keys: seq<Pos>, d: nat)
    requires Frontier(walkable, start, remaining, todo, dist, keys) && todo != []
    requires exists j :: j in dist && Adjacent(todo[0], j) && d == dist[j] + 1
    ensures var tile := todo[0];
            var n := Neighbors(tile, remaining);
            && Frontier(walkable, start, RemoveAll(remaining, n), todo[1..] + n, dist[tile := d], keys + [tile])
            && |RemoveAll(remaining, n)| == |remaining| - |n|
  {
    VisitPartition(walkable, remaining, todo, dist, keys, d);
    VisitChained(dist, start, todo[0], d);
    VisitQueued(todo, remaining, dist, d);
    VisitExplored(walkable, remaining, dist, todo[0], d);
  }

  lemma DistinctConcat(a: seq<Pos>, b: seq<Pos>)
    requires Distinct(a) && Distinct(b) && forall x :: x in a ==> x !in b
    ensures Distinct(a + b)
  {
    forall i, j | 0 <= i < j < |a + b|
      ensures (a + b)[i] != (a + b)[j]
    {
      if j < |a| {
      } else if i >= |a| {
        assert (a + b)[i] == b[i - |a|] && (a + b)[j] == b[j - |a|];
      } else {
        assert (a + b)[i] == a[i] && (a + b)[j] == b[j - |a|];
        assert a[i] in a && b[j - |a|] in b;
      }
    }
  }

  lemma {:induction false} RemoveAllSnoc(s: seq<Pos>, xs: seq<Pos>, x: Pos)
    ensures RemoveAll(s, xs + [x]) == Remove(RemoveAll(s, xs), x)
    decreases |xs|
  {
    if xs == [] {
      assert RemoveAll(Remove(s, x), []) == Remove(s, x);
    } else {
      assert (xs + [x])[1..] == xs[1..] + [x];
      RemoveAllSnoc(Remove(s, xs[0]), xs[1..], x);
    }
  }

  lemma {:induction false} RemoveAllSize(s: seq<Pos>, xs: seq<Pos>)
    requires Distinct(s) && Distinct(xs)
    requires forall x :: x in xs ==> x in s
    ensures |RemoveAll(s, xs)| == |s| - |xs|
    decreases |xs|
  {
    if xs != [] {
      var t := Remove(s, xs[0]);
      forall x | x in xs[1..]
        ensures x in t
      {
        var k :| 1 <= k < |xs| && xs[k] == x;
      }
      assert Distinct(xs[1..]) by {
        forall i, j | 0 <= i < j < |xs[1..]|
          ensures xs[1..][i] != xs[1..][j]
        {
          assert xs[1..][i] == xs[i + 1] && xs[1..][j] == xs[j + 1];
        }
      }
      RemoveAllSize(t, xs[1..]);
    }
  }

  /** What `get_distances_from` promises about its result for `start`. */
  ghost predicate IsDistances(dist: map<Pos, nat>, start: Pos, walkable: seq<Pos>)
  {
    && start in dist && dist[start] == 0
    && (forall k :: k in dist ==> k in walkable)
    && Chained(dist, start)
    && Closed(dist, walkable)
    && Tight(dist)
  }

  /** A walk of `|w| - 1` moves over walkable tiles from `from` to `to`. */
  ghost predicate IsWalk(w: seq<Pos>, walkable: seq<Pos>, from: Pos, to: Pos)
  {
    && w != [] && w[0] == from && w[|w| - 1] == to
    && (forall i :: 0 <= i < |w| ==> w[i] in walkable)
    && (forall i :: 0 < i < |w| ==> Adjacent(w[i - 1], w[i]))
  }

  /** `n` is the fewest moves of a walk from `from` to `to`. */
  ghost predicate IsShortest(n: nat, walkable: seq<Pos>, from: Pos, to: Pos)
  {
    && (exists w :: IsWalk(w, walkable, from, to) && |w| - 1 == n)
    && (forall w :: IsWalk(w, walkable, from, to) ==> n <= |w| - 1)
  }

  /** Every walk from the start ends on a recorded tile, whose distance is at
      most the walk's number of moves. */
  lemma {:induction false} WalkBound(dist: map<Pos, nat>, start: Pos, walkable: seq<Pos>, w: seq<Pos>, k: Pos)
    requires IsDistances(dist, start, walkable) && IsWalk(w, walkable, start, k)
    ensures k in dist && dist[k] <= |w| - 1
    decreases |w|
  {
    if |w| > 1 {
      var w' := w[..|w| - 1];
      var p := w[|w| - 2];
      assert IsWalk(w', walkable, start, p) by {
        forall i | 0 < i < |w'|
          ensures Adjacent(w'[i - 1], w'[i])
        {
          assert w'[i - 1] == w[i - 1] && w'[i] == w[i];
        }
      }
      WalkBound(dist, start, walkable, w', p);
      assert Adjacent(w[|w| - 2], w[|w| - 1]) && w[|w| - 1] in walkable;
    }
  }

  /** Each recorded tile has a walk from the start of exactly its distance. */
  lemma {:induction false} ChainWalk(dist: map<Pos, nat>, start: Pos, walkable: seq<Pos>, k: Pos) returns (w: seq<Pos>)
    requires IsDistances(dist, start, walkable) && k in dist
    ensures IsWalk(w, walkable, start, k) && |w| - 1 == dist[k]
    decreases dist[k]
  {
    if k == start {
      w := [start];
    } else {
      var j :| j in dist && Adjacent(k, j) && dist[k] == dist[j] + 1;
      var v := ChainWalk(dist, start, walkable, j);
      AdjacentSymmetric(k, j);
      w := v + [k];
      forall i | 0 < i < |w|
        ensures Adjacent(w[i - 1], w[i])
      {
        if i < |v| {
          assert w[i - 1] == v[i - 1] && w[i] == v[i];
        }
      }
    }
  }

  /** The distances are exactly the shortest walks: `n` is the fewest moves
      from the start to `k` if and only if `k` is recorded at `n`. */
  lemma DistancesAreShortest(dist: map<Pos, nat>, start: Pos, walkable: seq<Pos>, k: Pos, n: nat)
    requires IsDistances(dist, start, walkable)
    ensures IsShortest(n, walkable, start, k) <==> k in dist && dist[k] == n
  {
    if k in dist && dist[k] == n {
      var w := ChainWalk(dist, start, walkable, k);
      forall v | IsWalk(v, walkable, start, k)
        ensures n <= |v| - 1
      {
        WalkBound(dist, start, walkable, v, k);
      }
    }
    if IsShortest(n, walkable, start, k) {
      var v :| IsWalk(v, walkable, start, k) && |v| - 1 == n;
      WalkBound(dist, start, walkable, v, k);
      var w := ChainWalk(dist, start, walkable, k);
    }
  }

  /** Only one map meets IsDistances for a start and a floor. */
  lemma DistancesUnique(a: map<Pos, nat>, b: map<Pos, nat>, start: Pos, walkable: seq<Pos>)
    requires IsDistances(a, start, walkable) && IsDistances(b, start, walkable)
    ensures a == b
  {
    forall k | k in a
      ensures k in b && b[k] == a[k]
    {
      var w := ChainWalk(a, start, walkable, k);
      WalkBound(b, start, walkable, w, k);
      var v := ChainWalk(b, start, walkable, k);
      WalkBound(a, start, walkable, v, k);
    }
    forall k | k in b
      ensures k in a
    {
      var w := ChainWalk(b, start, walkable, k);
      WalkBound(a, start, walkable, w, k);
    }
  }

  /** A chained distance is never below the Manhattan distance to the start:
      a walk of n unit steps covers at most n in each axis together. */
  lemma {:induction false} ChainBound(dist: map<Pos, nat>, start: Pos, k: Pos)
    requires Chained(dist, start) && start in dist && k in dist
    ensures dist[k] >= Manhattan(start, k)
    decreases dist[k]
  {
    if k != start {
      var j :| j in dist && Adjacent(k, j) && dist[k] == dist[j] + 1;
      ChainBound(dist, start, j);
    }
  }

  /** Whatever a chained map of walkable tiles records lies inside every map
      that holds the start and is closed under adjacency: the tiles the walk
      records are exactly those reachable from the start. */
  lemma {:induction false} ReachedWithin(chain: map<Pos, nat>, closed: map<Pos, nat>, start: Pos, walkable: seq<Pos>, k: Pos)
    requires Chained(chain, start) && forall x :: x in chain ==> x in walkable
    requires start in closed && Closed(closed, walkable)
    requires k in chain
    ensures k in closed
    decreases chain[k]
  {
    if k != start {
      var j :| j in chain && Adjacent(k, j) && chain[k] == chain[j] + 1;
      ReachedWithin(chain, closed, start, walkable, j);
      assert Adjacent(j, k);
    }
  }

  /** `max(distances.values())`, over the keys in order. */
  function MaxDistance(dist: map<Pos, nat>, keys: seq<Pos>): (m: nat)
    requires keys != [] && forall k :: k in keys ==> k in dist
    ensures exists k :: k in keys && dist[k] == m
    ensures forall k :: k in keys ==> dist[k] <= m
  {
    if |keys| == 1 then dist[keys[0]]
    else
      var m := MaxDistance(dist, keys[1..]);
      if dist[keys[0]] > m then dist[keys[0]] else m
  }

  /** `find_shortest_path`: the fewest moves from the origin to the oxygen
      tile. No oxygen recorded, or no walk from the origin to it, raises. */
  method FindShortestPath(floor: Map) returns (r: Result<nat, Error>)
    requires floor.Valid()
    ensures r.Ok? <==> floor.oxygen.Some? && exists w :: IsWalk(w, floor.Walkable(), (0, 0), floor.oxygen.value)
    ensures r.Ok? ==> floor.oxygen.Some? && IsShortest(r.value, floor.Walkable(), (0, 0), floor.oxygen.value)
    ensures r.Ok? ==> r.value >= Manhattan((0, 0), floor.oxygen.value)
  {
    var d := GetDistancesFrom((0, 0), floor.Walkable());
    if d.Err? {
      return Err(d.error);
    }
    var (dist, keys) := d.value;
    if floor.oxygen.None? {
      return Err(NoOxygen);
    }
    var oxy := floor.oxygen.value;
    if oxy !in dist {
      return Err(KeyError(oxy));
    }
    ChainBound(dist, (0, 0), oxy);
    var w := ChainWalk(dist, (0, 0), floor.Walkable(), oxy);
    r := Ok(dist[oxy]);
  }

  /** The largest distance over the keys of a distance map is the fewest
      moves to some tile, and no reachable tile needs more. */
  lemma MaxOfDistances(dist: map<Pos, nat>, start: Pos, walkable: seq<Pos>, keys: seq<Pos>, m: nat)
    requires IsDistances(dist, start, walkable) && forall k :: k in dist <==> k in keys
    requires (exists k :: k in keys && dist[k] == m) && forall k :: k in keys ==> dist[k] <= m
    ensures exists k :: IsShortest(m, walkable, start, k)
    ensures forall k, n: nat :: IsShortest(n, walkable, start, k) ==> n <= m
  {
    var top :| top in keys && dist[top] == m;
    DistancesAreShortest(dist, start, walkable, top, m);
    forall k, n: nat | IsShortest(n, walkable, start, k)
      ensures n <= m
    {
      DistancesAreShortest(dist, start, walkable, k, n);
    }
  }

  /** `find_max_distance_from_oxy`: the most moves the oxygen needs to reach
      any tile reachable from it, each by its shortest walk. */
  method FindMaxDistanceFromOxy(floor: Map) returns (r: Result<nat, Error>)
    requires floor.Valid()
    ensures r.Err? <==> floor.oxygen.None? || floor.oxygen.value !in floor.Walkable()
    ensures r.Ok? ==> floor.oxygen.Some? && exists k :: IsShortest(r.value, floor.Walkable(), floor.oxygen.value, k)
    ensures r.Ok? ==> floor.oxygen.Some? && forall k, n: nat :: IsShortest(n, floor.Walkable(), floor.oxygen.value, k) ==> n <= r.value
  {
    if floor.oxygen.None? {
      return Err(NoOxygen);
    }
    var oxy := floor.oxygen.value;
    var walkable := floor.Walkable();
    var d := GetDistancesFrom(oxy, walkable);
    if d.Err? {
      return Err(d.error);
    }
    var (dist, keys) := d.value;
    assert oxy in keys;
    var m := MaxDistance(dist, keys);
    MaxOfDistances(dist, oxy, walkable, keys, m);
    r := Ok(m);
  }
}
