/** Day 11 (aoc/d11.py): the hull-painting robot. Panels are objects that are
    painted in place and kept in a dictionary by position; the robot has a
    position and a facing that it turns and moves. What is modelled is what
    `run_robot` does around each suspension of the program: find or create
    the panel under the robot, then take the two outputs (colour, turn) and
    paint, turn and move. The program itself, and so the loop that drives it,
    are parameters left outside the model. */
module Day11 {
  import opened Wrappers

  // `Color`.
  const BLACK: int := 0
  const WHITE: int := 1

  /** `Direction`, an IntEnum 0..3. */
  datatype Direction = Up | Down | Left | Right

  /** `TurnDirection`. */
  datatype TurnDirection = TurnLeft | TurnRight

  /** What the source raises: ValueError from `Color(c)` or `TurnDirection(td)`
      of a value outside 0..1, and ValueError from unpacking a number of
      outputs other than two. */
  datatype Error = InvalidColor(c: int) | InvalidTurn(td: int) | Unpack(count: nat)

  /** The left turn table of `Robot.turn`. */
  function Left90(d: Direction): Direction
  {
    match d
    case Up => Left
    case Down => Right
    case Left => Down
    case Right => Up
  }

  /** The right turn table of `Robot.turn`. */
  function Right90(d: Direction): Direction
  {
    match d
    case Up => Right
    case Down => Left
    case Left => Up
    case Right => Down
  }

  /** The two turn tables are inverse rotations: either undoes the other, and
      four turns the same way come back to the start. */
  lemma TurnsAreRotations(d: Direction)
    ensures Right90(Left90(d)) == d && Left90(Right90(d)) == d
    ensures Left90(Left90(Left90(Left90(d)))) == d
    ensures Right90(Right90(Right90(Right90(d)))) == d
    ensures Left90(d) != d && Right90(d) != d && Left90(d) != Right90(d)
  {
  }

  /** The move table of `move_forward`; UP is +y in this file. */
  function Delta(d: Direction): (int, int)
  {
    match d
    case Up => (0, 1)
    case Down => (0, -1)
    case Left => (-1, 0)
    case Right => (1, 0)
  }

  function Abs(n: int): nat
  {
    if n < 0 then -n else n
  }

  /** Every move is one unit along one axis, and turning round reverses it. */
  lemma DeltaIsUnit(d: Direction)
    ensures Abs(Delta(d).0) + Abs(Delta(d).1) == 1
    ensures var back := Left90(Left90(d));
            Delta(back) == (-Delta(d).0, -Delta(d).1)
  {
  }

  /** `Color(c)`: the enum member of that value, or ValueError. */
  function ToColor(c: int): (r: Result<int, Error>)
    ensures r.Ok? <==> c == BLACK || c == WHITE
    ensures r.Ok? ==> r.value == c
    ensures r.Err? ==> r.error == InvalidColor(c)
  {
    if c == BLACK || c == WHITE then Ok(c) else Err(InvalidColor(c))
  }

  /** The value of a `TurnDirection` member. */
  function TurnValue(t: TurnDirection): int
  {
    match t
    case TurnLeft => 0
    case TurnRight => 1
  }

  /** `TurnDirection(td)`: the member whose value is `td`, or ValueError. */
  function ToTurn(td: int): (r: Result<TurnDirection, Error>)
    ensures r.Ok? <==> td == 0 || td == 1
    ensures r.Ok? ==> TurnValue(r.value) == td
    ensures r.Err? ==> r.error == InvalidTurn(td)
  {
    if td == 0 then Ok(TurnLeft) else if td == 1 then Ok(TurnRight) else Err(InvalidTurn(td))
  }

  /** Looking a member up by its value gives that member back. */
  lemma TurnRoundTrip(t: TurnDirection)
    ensures ToTurn(TurnValue(t)) == Ok(t)
  {
  }

  /** `Panel`: a position, a colour and whether it was ever painted. */
  class Panel {
    const x: int
    const y: int
    var color: int
    var painted: bool

    /** `Panel(x, y, color=BLACK, painted=False)`. */
    constructor (x: int, y: int, color: int)
      ensures this.x == x && this.y == y && this.color == color && !painted
    {
      this.x, this.y := x, y;
      this.color, painted := color, false;
    }

    /** `paint(color)`: sets the colour and marks the panel painted; nothing
        ever clears the mark. */
    method Paint(color: int)
      modifies this
      ensures this.color == color && painted
    {
      this.color := color;
      painted := true;
    }
  }

  /** `Robot`: a position and a facing. */
  class Robot {
    var x: int
    var y: int
    var direction: Direction

    /** `Robot(x, y, direction=UP)`. */
    constructor (x: int, y: int)
      ensures this.x == x && this.y == y && direction == Up
    {
      this.x, this.y := x, y;
      direction := Up;
    }

    /** `turn(td)`. */
    method Turn(td: TurnDirection)
      modifies this
      ensures direction == if td == TurnLeft then Left90(old(direction)) else Right90(old(direction))
      ensures x == old(x) && y == old(y)
    {
      if td == TurnLeft {
        direction := Left90(direction);
      } else {
        direction := Right90(direction);
      }
    }

    /** `move_forward`: one unit in the facing direction. */
    method MoveForward()
      modifies this
      ensures (x, y) == (old(x) + Delta(direction).0, old(y) + Delta(direction).1)
      ensures direction == old(direction)
      ensures Abs(x - old(x)) + Abs(y - old(y)) == 1
    {
      DeltaIsUnit(direction);
      var move := Delta(direction);
      x := x + move.0;
      y := y + move.1;
    }
  }

  /** The state `run_robot` starts from: a dictionary holding only the start
      panel, with the initial colour and unpainted, and a robot there facing
      up. */
  method Start(x0: int, y0: int, color: int) returns (panels: map<(int, int), Panel>, robot: Robot)
    ensures panels.Keys == {(x0, y0)} && fresh(panels[(x0, y0)]) && fresh(robot)
    ensures panels[(x0, y0)].color == color && !panels[(x0, y0)].painted
    ensures robot.x == x0 && robot.y == y0 && robot.direction == Up
  {
    var p := new Panel(x0, y0, color);
    panels := map[(x0, y0) := p];
    robot := new Robot(x0, y0);
  }

  /** The top of the loop of `run_robot`: the panel under the robot, created
      black and unpainted when the position was never visited. */
  method Visit(panels: map<(int, int), Panel>, robot: Robot) returns (p: Panel, after: map<(int, int), Panel>)
    ensures (robot.x, robot.y) in panels ==> p == panels[(robot.x, robot.y)] && after == panels
    ensures (robot.x, robot.y) !in panels ==>
              fresh(p) && p.x == robot.x && p.y == robot.y && p.color == BLACK && !p.painted &&
              after == panels[(robot.x, robot.y) := p]
  {
    var pos := (robot.x, robot.y);
    if pos in panels {
      p := panels[pos];
      after := panels;
    } else {
      p := new Panel(robot.x, robot.y, BLACK);
      after := panels[pos := p];
    }
  }

  /** The `except WaitingOnInput` branch of `run_robot`: the outputs must be
      exactly two, (colour, turn); the panel is painted, then the robot turns,
      then it moves one unit. An invalid colour raises before anything
      changes; an invalid turn raises after the painting. */
  method OnSuspension(p: Panel, robot: Robot, outputs: seq<int>) returns (r: Result<(), Error>)
    modifies p, robot
    ensures |outputs| != 2 ==> r == Err(Unpack(|outputs|)) && unchanged(p, robot)
    ensures |outputs| == 2 && ToColor(outputs[0]).Err? ==> r == Err(InvalidColor(outputs[0])) && unchanged(p, robot)
    ensures |outputs| == 2 && ToColor(outputs[0]).Ok? ==> p.color == outputs[0] && p.painted
    ensures |outputs| == 2 && ToColor(outputs[0]).Ok? && ToTurn(outputs[1]).Err? ==>
              r == Err(InvalidTurn(outputs[1])) && unchanged(robot)
    ensures |outputs| == 2 && ToColor(outputs[0]).Ok? && ToTurn(outputs[1]).Ok? ==>
              var d := if outputs[1] == 0 then Left90(old(robot.direction)) else Right90(old(robot.direction));
              && r == Ok(())
              && robot.direction == d
              && (robot.x, robot.y) == (old(robot.x) + Delta(d).0, old(robot.y) + Delta(d).1)
  {
    if |outputs| != 2 {
      return Err(Unpack(|outputs|));
    }
    var c, td := outputs[0], outputs[1];
    var color :- ToColor(c);
    p.Paint(color);
    var turn :- ToTurn(td);
    robot.Turn(turn);
    robot.MoveForward();
    r := Ok(());
  }

  /** The dictionary of `run_robot` holds one panel object per position:
      every panel it ever stores is created fresh for its position. */
  ghost predicate Separate(panels: map<(int, int), Panel>)
  {
    forall k, l :: k in panels && l in panels && k != l ==> panels[k] != panels[l]
  }

  /** One whole round of the loop of `run_robot`, given what the program did
      with the panel's colour as input: whether it suspended (WaitingOnInput,
      and the loop goes on) or returned normally (`else: break`), and its
      outputs. The result says whether the loop goes on. */
  method Round(panels: map<(int, int), Panel>, robot: Robot, suspended: bool, outputs: seq<int>)
    returns (r: Result<bool, Error>, after: map<(int, int), Panel>, input: int)
    modifies set k | k in panels :: panels[k], robot
    ensures (old(robot.x), old(robot.y)) in after && input == old(if (robot.x, robot.y) in panels then panels[(robot.x, robot.y)].color else BLACK)
    ensures forall k :: k in panels ==> k in after && after[k] == panels[k]
    ensures after.Keys == panels.Keys + {(old(robot.x), old(robot.y))}
    ensures !suspended ==> r == Ok(false) && unchanged(robot)
    ensures suspended && r.Ok? ==> r.value && Abs(robot.x - old(robot.x)) + Abs(robot.y - old(robot.y)) == 1
    ensures suspended && r.Ok? ==> after[(old(robot.x), old(robot.y))].painted
    ensures suspended && |outputs| != 2 ==> r == Err(Unpack(|outputs|)) && unchanged(robot)
    ensures suspended && |outputs| == 2 && ToColor(outputs[0]).Err? ==>
              r == Err(InvalidColor(outputs[0])) && unchanged(robot)
    ensures suspended && |outputs| == 2 && ToColor(outputs[0]).Ok? ==>
              after[(old(robot.x), old(robot.y))].color == outputs[0] && after[(old(robot.x), old(robot.y))].painted
    ensures suspended && |outputs| == 2 && ToColor(outputs[0]).Ok? && ToTurn(outputs[1]).Err? ==>
              r == Err(InvalidTurn(outputs[1])) && unchanged(robot)
    ensures suspended && |outputs| == 2 && ToColor(outputs[0]).Ok? && ToTurn(outputs[1]).Ok? ==>
              var d := if outputs[1] == 0 then Left90(old(robot.direction)) else Right90(old(robot.direction));
              && r == Ok(true)
              && robot.direction == d
              && (robot.x, robot.y) == (old(robot.x) + Delta(d).0, old(robot.y) + Delta(d).1)
    ensures !(suspended && |outputs| == 2 && ToColor(outputs[0]).Ok?) ==>
              && (forall k :: k in panels ==> panels[k].color == old(panels[k].color) && panels[k].painted == old(panels[k].painted))
              && after[(old(robot.x), old(robot.y))].color == input
              && ((old(robot.x), old(robot.y)) !in panels ==> !after[(old(robot.x), old(robot.y))].painted)
    ensures Separate(panels) ==>
              && Separate(after)
              && forall k :: k in panels && k != (old(robot.x), old(robot.y)) ==>
                   panels[k].color == old(panels[k].color) && panels[k].painted == old(panels[k].painted)
  {
    var p;
    p, after := Visit(panels, robot);
    input := p.color;
    if !suspended {
      return Ok(false), after, input;
    }
    ghost var x0, y0, d0 := robot.x, robot.y, robot.direction;
    var s := OnSuspension(p, robot, outputs);
    if s.Err? {
      return Err(s.error), after, input;
    }
    var d := if outputs[1] == 0 then Left90(d0) else Right90(d0);
    DeltaIsUnit(d);
    r := Ok(true);
  }
}
