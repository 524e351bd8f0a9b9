/** Day 13 (aoc/d13.py): the arcade game. The program's outputs come in
    triples (x, y, tile id); the game state keeps a fixed-size tile buffer of
    `w * h` cells with a counter of blocks, the score, a frame number and the
    last positions of the paddle and the ball. The program run itself and the
    rendering are not modelled; the outputs are parameters. */
module Day13 {
  import opened Wrappers
  import opened Lists

  // The tile ids of `Tile`.
  const EMPTY: int := 0
  const WALL: int := 1
  const BLOCK: int := 2
  const PADDLE: int := 3
  const BALL: int := 4

  /** What the source raises: IndexError from a tile subscript, ValueError from
      `Tile(v)` of an id outside 0..4, and ValueError from `max` of nothing. */
  datatype Error = IndexError | InvalidTile(v: int) | EmptyMax

  predicate IsTile(v: int)
  {
    EMPTY <= v <= BALL
  }

  // ---------------------------------------------------------------------------
  // Part 1: blocks drawn by the first run

  /** The outputs at positions 2, 5, 8, ...: the tile id of each triple. */
  function TileIds(output: seq<int>): (r: seq<int>)
    ensures |r| == |output| / 3
    ensures forall k :: 0 <= k < |r| ==> r[k] == output[3 * k + 2]
    decreases |output|
  {
    if |output| < 3 then []
    else
      var rest := TileIds(output[3..]);
      assert forall k :: 0 <= k < |rest| ==> rest[k] == output[3 * (k + 1) + 2];
      [output[2]] + rest
  }

  /** Triple `k` lies inside a list of `n` values exactly when `k < n / 3`. */
  lemma ThirdsBelow(k: nat, n: nat)
    ensures 3 * k + 2 < n <==> k < n / 3
  {
    var q, r := n / 3, n % 3;
    assert n == 3 * q + r && 0 <= r < 3;
  }

  /** `get_blocks_after_first_run` on the outputs of the run: the loop over
      `range(2, len(output), 3)` counts the tile ids equal to BLOCK. */
  method GetBlocksAfterFirstRun(output: seq<int>) returns (c: nat)
    ensures c == Count(TileIds(output), BLOCK)
  {
    var ids := TileIds(output);
    c := 0;
    var i := 2;
    ghost var k := 0;
    while i < |output|
      invariant i == 3 * k + 2 && k <= |ids|
      invariant c == Count(ids[..k], BLOCK)
      decreases |output| - i
    {
      ThirdsBelow(k, |output|);
      assert output[i] == ids[k];
      CountPrefix(ids, k, BLOCK);
      if output[i] == BLOCK {
        c := c + 1;
      }
      i := i + 3;
      k := k + 1;
    }
    assert ids[..k] == ids;
  }

  // ---------------------------------------------------------------------------
  // The game state as a value

  /** The fields of `GameState`. */
  datatype Game = Game(w: int, h: int, tiles: seq<int>, frame: int, score: int, blocks: int,
                       paddle: (int, int), ball: (int, int))

  /** `GameState(w, h)`: `[0] * (w * h)` tiles, which is no tile at all when
      `w * h` is not positive, and every counter at 0. */
  function Fresh(w: int, h: int): (g: Game)
    ensures |g.tiles| == if w * h > 0 then w * h else 0
    ensures forall k :: 0 <= k < |g.tiles| ==> g.tiles[k] == EMPTY
  {
    Game(w, h, seq(if w * h > 0 then w * h else 0, _ => EMPTY), 0, 0, 0, (0, 0), (0, 0))
  }

  /** The buffer position of (x, y): the subscript `y * w + x`. */
  function Cell(g: Game, x: int, y: int): Option<nat>
  {
    Subscript(|g.tiles|, y * g.w + x)
  }

  /** `get(x, y)`. */
  function TileAt(g: Game, x: int, y: int): Result<int, Error>
  {
    match Cell(g, x, y)
    case None => Err(IndexError)
    case Some(k) => Ok(g.tiles[k])
  }

  /** `_update_counters` once the current tile `cv` has been read. */
  function Counted(g: Game, x: int, y: int, cv: int, v: int): Game
  {
    if cv == EMPTY && v == BLOCK then g.(blocks := g.blocks + 1)
    else if cv == BLOCK && v == EMPTY then g.(blocks := g.blocks - 1)
    else if v == PADDLE then g.(paddle := (x, y))
    else if v == BALL then g.(ball := (x, y))
    else g
  }

  /** `set(x, y, v)`: the counters first, then the tile. */
  function SetTile(g: Game, x: int, y: int, v: int): Result<Game, Error>
  {
    match Cell(g, x, y)
    case None => Err(IndexError)
    case Some(k) =>
      var c := Counted(g, x, y, g.tiles[k], v);
      Ok(c.(tiles := c.tiles[k := v]))
  }

  /** `set` writes `v` at `y * w + x` and at no other cell; the block counter
      goes up by one from EMPTY to BLOCK, down by one from BLOCK to EMPTY and
      stays put otherwise; PADDLE and BALL record their position; the size,
      frame and score do not change. A position outside the buffer raises
      IndexError before anything changes. */
  lemma SetTileSpec(g: Game, x: int, y: int, v: int)
    ensures SetTile(g, x, y, v).Ok? <==> Cell(g, x, y).Some?
    ensures SetTile(g, x, y, v).Ok? ==>
              var k := Cell(g, x, y).value;
              var cv := g.tiles[k];
              var n := SetTile(g, x, y, v).value;
              && n.tiles == g.tiles[k := v]
              && n.w == g.w && n.h == g.h && n.frame == g.frame && n.score == g.score
              && n.blocks == g.blocks + (if cv == EMPTY && v == BLOCK then 1 else if cv == BLOCK && v == EMPTY then -1 else 0)
              && n.paddle == (if v == PADDLE then (x, y) else g.paddle)
              && n.ball == (if v == BALL then (x, y) else g.ball)
  {
  }

  lemma {:induction false} CountUpdate(xs: seq<int>, k: nat, v: int, c: int)
    requires k < |xs|
    ensures Count(xs[k := v], c) == Count(xs, c) - (if xs[k] == c then 1 else 0) + (if v == c then 1 else 0)
  {
    if k > 0 {
      CountUpdate(xs[1..], k - 1, v, c);
      assert xs[k := v][1..] == xs[1..][k - 1 := v];
    } else {
      assert xs[k := v][1..] == xs[1..];
    }
  }

  /** A block only ever appears on or vanishes into an empty cell: then the
      counter keeps equal to the number of BLOCK tiles in the buffer. */
  predicate CountedTransition(cv: int, v: int)
  {
    (v == BLOCK ==> cv == EMPTY || cv == BLOCK) && (cv == BLOCK ==> v == EMPTY || v == BLOCK)
  }

  lemma BlocksTracked(g: Game, x: int, y: int, v: int)
    requires g.blocks == Count(g.tiles, BLOCK)
    requires Cell(g, x, y).Some? && CountedTransition(g.tiles[Cell(g, x, y).value], v)
    ensures SetTile(g, x, y, v).Ok? && SetTile(g, x, y, v).value.blocks == Count(SetTile(g, x, y, v).value.tiles, BLOCK)
  {
    CountUpdate(g.tiles, Cell(g, x, y).value, v, BLOCK);
  }

  /** The other transitions are not counted: a block drawn over a wall leaves
      the counter one short of the blocks on the screen. */
  lemma BlockOverWallIsNotCounted(g: Game)
    requires g == Game(1, 1, [WALL], 0, 0, 0, (0, 0), (0, 0))
    ensures SetTile(g, 0, 0, BLOCK) == Ok(Game(1, 1, [BLOCK], 0, 0, 0, (0, 0), (0, 0)))
    ensures Count([BLOCK], BLOCK) == 1
  {
    assert Cell(g, 0, 0) == Some(0);
    assert Counted(g, 0, 0, WALL, BLOCK) == g;
    assert [WALL][0 := BLOCK] == [BLOCK];
    assert Count([BLOCK][1..], BLOCK) == 0;
  }

  // ---------------------------------------------------------------------------
  // Updates from a list of outputs

  /** The `i`-th triple of the outputs. */
  function Triple(values: seq<int>, i: nat): (int, int, int)
    requires 3 * i + 2 < |values|
  {
    (values[3 * i], values[3 * i + 1], values[3 * i + 2])
  }

  /** The first loop of `update` over the first `n` triples, from the score
      `score`: a triple with x = -1 sets the score, every other one becomes a
      pixel (raising ValueError when its id is no tile). */
  function Sift(score: int, values: seq<int>, n: nat): Result<(int, seq<(int, int, int)>), Error>
    requires 3 * n <= |values|
  {
    if n == 0 then Ok((score, []))
    else
      var (s, pixels) :- Sift(score, values, n - 1);
      var t := Triple(values, n - 1);
      if t.0 == -1 then Ok((t.2, pixels))
      else if !IsTile(t.2) then Err(InvalidTile(t.2))
      else Ok((s, pixels + [t]))
  }

  /** The triples among the first `n` that are not score triples. */
  function Pixels(values: seq<int>, n: nat): seq<(int, int, int)>
    requires 3 * n <= |values|
  {
    if n == 0 then []
    else if Triple(values, n - 1).0 == -1 then Pixels(values, n - 1)
    else Pixels(values, n - 1) + [Triple(values, n - 1)]
  }

  /** The third value of the last score triple among the first `n`, or `score`
      when there is none. */
  function LastScore(score: int, values: seq<int>, n: nat): int
    requires 3 * n <= |values|
  {
    if n == 0 then score
    else if Triple(values, n - 1).0 == -1 then Triple(values, n - 1).2
    else LastScore(score, values, n - 1)
  }

  /** The first loop of `update` succeeds exactly when every non-score triple
      has a tile id; the score is then the last score triple's value, and the
      pixels are the other triples, in order: a score triple is never drawn. */
  lemma {:induction false} SiftSpec(score: int, values: seq<int>, n: nat)
    requires 3 * n <= |values|
    ensures Sift(score, values, n).Ok? <==>
              forall i :: 0 <= i < n && Triple(values, i).0 != -1 ==> IsTile(Triple(values, i).2)
    ensures Sift(score, values, n).Ok? ==>
              Sift(score, values, n).value == (LastScore(score, values, n), Pixels(values, n))
    ensures forall p :: p in Pixels(values, n) ==> p.0 != -1
  {
    if n > 0 {
      SiftSpec(score, values, n - 1);
    }
  }

  lemma {:induction false} SiftStaysFailed(score: int, values: seq<int>, i: nat, n: nat)
    requires i <= n && 3 * n <= |values| && Sift(score, values, i).Err?
    ensures Sift(score, values, n) == Sift(score, values, i)
    decreases n
  {
    if n > i {
      SiftStaysFailed(score, values, i, n - 1);
    }
  }

  /** `set_tiles` on the first `n` pixels. */
  function SetAll(g: Game, pixels: seq<(int, int, int)>, n: nat): Result<Game, Error>
    requires n <= |pixels|
  {
    if n == 0 then Ok(g)
    else
      var before :- SetAll(g, pixels, n - 1);
      SetTile(before, pixels[n - 1].0, pixels[n - 1].1, pixels[n - 1].2)
  }

  lemma {:induction false} SetAllStaysFailed(g: Game, pixels: seq<(int, int, int)>, i: nat, n: nat)
    requires i <= n <= |pixels| && SetAll(g, pixels, i).Err?
    ensures SetAll(g, pixels, n) == SetAll(g, pixels, i)
    decreases n
  {
    if n > i {
      SetAllStaysFailed(g, pixels, i, n - 1);
    }
  }

  /** Drawing pixels keeps the buffer's size and the size, frame and score. */
  lemma {:induction false} SetAllKeeps(g: Game, pixels: seq<(int, int, int)>, n: nat)
    requires n <= |pixels| && SetAll(g, pixels, n).Ok?
    ensures var r := SetAll(g, pixels, n).value;
            |r.tiles| == |g.tiles| && r.w == g.w && r.h == g.h && r.frame == g.frame && r.score == g.score
  {
    if n > 0 {
      SetAllKeeps(g, pixels, n - 1);
      SetTileSpec(SetAll(g, pixels, n - 1).value, pixels[n - 1].0, pixels[n - 1].1, pixels[n - 1].2);
    }
  }

  /** `update(values)`. */
  function UpdateGame(g: Game, values: seq<int>): Result<Game, Error>
    requires |values| % 3 == 0
  {
    var (score, pixels) :- Sift(g.score, values, |values| / 3);
    SetAll(g.(frame := g.frame + 1, score := score), pixels, |pixels|)
  }

  /** An update that completes counts exactly one more frame, leaves the score
      at the last score triple's value (unchanged without one), keeps the
      buffer's size, and draws exactly the non-score triples, in order. */
  lemma UpdateSpec(g: Game, values: seq<int>)
    requires |values| % 3 == 0
    ensures UpdateGame(g, values).Ok? ==>
              var n := UpdateGame(g, values).value;
              && n.frame == g.frame + 1
              && n.score == LastScore(g.score, values, |values| / 3)
              && |n.tiles| == |g.tiles| && n.w == g.w && n.h == g.h
    ensures var pixels := Pixels(values, |values| / 3);
            UpdateGame(g, values).Ok? ==>
              UpdateGame(g, values) == SetAll(g.(frame := g.frame + 1, score := LastScore(g.score, values, |values| / 3)), pixels, |pixels|)
  {
    SiftSpec(g.score, values, |values| / 3);
    if UpdateGame(g, values).Ok? {
      var (score, pixels) := Sift(g.score, values, |values| / 3).value;
      SetAllKeeps(g.(frame := g.frame + 1, score := score), pixels, |pixels|);
    }
  }

  // ---------------------------------------------------------------------------
  // Initialisation

  /** `Tile(v)` for the id of every one of the first `n` triples. */
  function CheckTiles(values: seq<int>, n: nat): Result<(), Error>
    requires 3 * n <= |values|
  {
    if n == 0 then Ok(())
    else
      var _ :- CheckTiles(values, n - 1);
      if IsTile(values[3 * (n - 1) + 2]) then Ok(()) else Err(InvalidTile(values[3 * (n - 1) + 2]))
  }

  lemma {:induction false} CheckTilesStaysFailed(values: seq<int>, i: nat, n: nat)
    requires i <= n && 3 * n <= |values| && CheckTiles(values, i).Err?
    ensures CheckTiles(values, n) == CheckTiles(values, i)
    decreases n
  {
    if n > i {
      CheckTilesStaysFailed(values, i, n - 1);
    }
  }

  /** Every triple, score triples included, as a pixel. */
  function AllTriples(values: seq<int>): (r: seq<(int, int, int)>)
    requires |values| % 3 == 0
    ensures |r| == |values| / 3
    ensures forall i :: 0 <= i < |r| ==> r[i] == Triple(values, i)
  {
    seq(|values| / 3, i requires 0 <= i < |values| / 3 => Triple(values, i))
  }

  /** `max` of a non-empty list. */
  function Max(xs: seq<int>): (m: int)
    requires xs != []
    ensures m in xs && forall k :: 0 <= k < |xs| ==> xs[k] <= m
  {
    if |xs| == 1 then xs[0]
    else
      var m := Max(xs[..|xs| - 1]);
      assert forall k :: 0 <= k < |xs| - 1 ==> xs[..|xs| - 1][k] == xs[k];
      if xs[|xs| - 1] > m then xs[|xs| - 1] else m
  }

  function Xs(pixels: seq<(int, int, int)>): (r: seq<int>)
    ensures |r| == |pixels| && forall i :: 0 <= i < |r| ==> r[i] == pixels[i].0
  {
    seq(|pixels|, i requires 0 <= i < |pixels| => pixels[i].0)
  }

  function Ys(pixels: seq<(int, int, int)>): (r: seq<int>)
    ensures |r| == |pixels| && forall i :: 0 <= i < |r| ==> r[i] == pixels[i].1
  {
    seq(|pixels|, i requires 0 <= i < |pixels| => pixels[i].1)
  }

  /** `GameState.init(values)`: every triple, the score triple included, is
      drawn onto a fresh state of width max x + 1 and height max y + 1. */
  function InitGame(values: seq<int>): Result<Game, Error>
    requires |values| % 3 == 0
  {
    var _ :- CheckTiles(values, |values| / 3);
    var pixels := AllTriples(values);
    if pixels == [] then Err(EmptyMax)
    else SetAll(Fresh(Max(Xs(pixels)) + 1, Max(Ys(pixels)) + 1), pixels, |pixels|)
  }

  /** An initialisation that completes sizes the grid so that every triple's
      x is below its width and y below its height, with some triple on the
      last column and some on the last row; the buffer has `w * h` cells,
      and the frame and score start at 0. */
  lemma InitSpec(values: seq<int>)
    requires |values| % 3 == 0
    ensures InitGame(values).Ok? ==>
              var g := InitGame(values).value;
              && (forall i :: 0 <= i < |values| / 3 ==> Triple(values, i).0 < g.w && Triple(values, i).1 < g.h)
              && (exists i :: 0 <= i < |values| / 3 && Triple(values, i).0 == g.w - 1)
              && (exists i :: 0 <= i < |values| / 3 && Triple(values, i).1 == g.h - 1)
              && |g.tiles| == (if g.w * g.h > 0 then g.w * g.h else 0)
              && g.frame == 0 && g.score == 0
  {
    if InitGame(values).Ok? {
      var pixels := AllTriples(values);
      var g0 := Fresh(Max(Xs(pixels)) + 1, Max(Ys(pixels)) + 1);
      assert InitGame(values) == SetAll(g0, pixels, |pixels|);
      SetAllKeeps(g0, pixels, |pixels|);
      PixelExtent(pixels);
    }
  }

  /** The largest x and y of the pixels bound every pixel and are reached. */
  lemma PixelExtent(pixels: seq<(int, int, int)>)
    requires pixels != []
    ensures forall i :: 0 <= i < |pixels| ==> pixels[i].0 <= Max(Xs(pixels)) && pixels[i].1 <= Max(Ys(pixels))
    ensures exists i :: 0 <= i < |pixels| && pixels[i].0 == Max(Xs(pixels))
    ensures exists i :: 0 <= i < |pixels| && pixels[i].1 == Max(Ys(pixels))
  {
    var xs, ys := Xs(pixels), Ys(pixels);
    forall i | 0 <= i < |pixels| ensures pixels[i].0 <= Max(xs) && pixels[i].1 <= Max(ys) {
      assert xs[i] == pixels[i].0 && ys[i] == pixels[i].1;
    }
    var i :| 0 <= i < |xs| && xs[i] == Max(xs);
    var j :| 0 <= j < |ys| && ys[j] == Max(ys);
    assert pixels[i].0 == Max(xs) && pixels[j].1 == Max(ys);
  }

  // ---------------------------------------------------------------------------
  // The joystick of `play`

  /** The joystick input of `play`: towards the ball. */
  function Joystick(ballX: int, paddleX: int): (r: int)
    ensures r == 1 || r == -1 || r == 0
    ensures r > 0 <==> ballX > paddleX
    ensures r < 0 <==> ballX < paddleX
  {
    var delta := ballX - paddleX;
    if delta > 0 then 1 else if delta < 0 then -1 else 0
  }

  function Abs(n: int): nat
  {
    if n < 0 then -n else n
  }

  /** A paddle moved by the joystick input ends one column closer to the
      ball, or stays under it. */
  lemma JoystickClosesGap(ballX: int, paddleX: int)
    ensures Abs(ballX - (paddleX + Joystick(ballX, paddleX))) ==
              if ballX == paddleX then 0 else Abs(ballX - paddleX) - 1
  {
  }

  // ---------------------------------------------------------------------------
  // The object

  /** `GameState`, with its tile buffer updated in place. */
  class GameState {
    const w: int
    const h: int
    const tiles: array<int>
    var frame: int
    var score: int
    var blocks: int
    var paddle: (int, int)
    var ball: (int, int)

    function State(): Game
      reads this, tiles
    {
      Game(w, h, tiles[..], frame, score, blocks, paddle, ball)
    }

    /** `GameState(w, h)`. */
    constructor (w: int, h: int)
      ensures State() == Fresh(w, h) && fresh(tiles)
    {
      this.w, this.h := w, h;
      var n := if w * h > 0 then w * h else 0;
      var buffer := new int[n];
      forall k | 0 <= k < n {
        buffer[k] := EMPTY;
      }
      assert buffer[..] == Fresh(w, h).tiles;
      tiles := buffer;
      frame, score, blocks := 0, 0, 0;
      paddle, ball := (0, 0), (0, 0);
    }

    /** `get(x, y)`. */
    method Get(x: int, y: int) returns (r: Result<int, Error>)
      ensures r == TileAt(State(), x, y)
    {
      var k := Subscript(tiles.Length, y * w + x);
      if k.None? {
        return Err(IndexError);
      }
      r := Ok(tiles[k.value]);
    }

    /** `_update_counters(x, y, v)`. */
    method UpdateCounters(x: int, y: int, v: int) returns (r: Result<(), Error>)
      modifies this
      ensures r.Ok? <==> Cell(old(State()), x, y).Some?
      ensures r.Ok? ==> State() == Counted(old(State()), x, y, tiles[Cell(old(State()), x, y).value], v)
      ensures r.Err? ==> State() == old(State())
    {
      var cv :- Get(x, y);
      if cv == EMPTY && v == BLOCK {
        blocks := blocks + 1;
      } else if cv == BLOCK && v == EMPTY {
        blocks := blocks - 1;
      } else if v == PADDLE {
        paddle := (x, y);
      } else if v == BALL {
        ball := (x, y);
      }
      r := Ok(());
    }

    /** `set(x, y, v)`. */
    method Set(x: int, y: int, v: int) returns (r: Result<(), Error>)
      modifies this, tiles
      ensures r.Ok? <==> SetTile(old(State()), x, y, v).Ok?
      ensures r.Ok? ==> State() == SetTile(old(State()), x, y, v).value
      ensures r.Err? ==> State() == old(State())
    {
      r := UpdateCounters(x, y, v);
      if r.Ok? {
        var k := Subscript(tiles.Length, y * w + x).value;
        tiles[k] := v;
      }
    }

    /** `set_tiles(pixels)`. */
    method SetTiles(pixels: seq<(int, int, int)>) returns (r: Result<(), Error>)
      modifies this, tiles
      ensures r.Ok? <==> SetAll(old(State()), pixels, |pixels|).Ok?
      ensures r.Ok? ==> State() == SetAll(old(State()), pixels, |pixels|).value
    {
      for i := 0 to |pixels|
        invariant SetAll(old(State()), pixels, i) == Ok(State())
      {
        var s := Set(pixels[i].0, pixels[i].1, pixels[i].2);
        if s.Err? {
          SetAllStaysFailed(old(State()), pixels, i + 1, |pixels|);
          return s;
        }
      }
      r := Ok(());
    }

    /** `update(values)`: one more frame, the score triples set the score, and
        the other triples are drawn. */
    method Update(values: seq<int>) returns (r: Result<(), Error>)
      requires |values| % 3 == 0
      modifies this, tiles
      ensures r.Ok? <==> UpdateGame(old(State()), values).Ok?
      ensures r.Ok? ==> State() == UpdateGame(old(State()), values).value
    {
      ghost var start := State();
      frame := frame + 1;
      var pixels := [];
      for i := 0 to |values| / 3
        invariant State() == start.(frame := start.frame + 1, score := score)
        invariant Sift(start.score, values, i) == Ok((score, pixels))
      {
        var x, y, v := values[3 * i], values[3 * i + 1], values[3 * i + 2];
        if x == -1 {
          score := v;
        } else {
          if !IsTile(v) {
            SiftStaysFailed(start.score, values, i + 1, |values| / 3);
            return Err(InvalidTile(v));
          }
          pixels := pixels + [(x, y, v)];
        }
      }
      r := SetTiles(pixels);
    }

    /** The `Tile(v)` conversions of `init`, one per triple. */
    static method CheckTileIds(values: seq<int>) returns (r: Result<(), Error>)
      requires |values| % 3 == 0
      ensures r == CheckTiles(values, |values| / 3)
    {
      for i := 0 to |values| / 3
        invariant CheckTiles(values, i) == Ok(())
      {
        ThirdsBelow(i, |values|);
        if !IsTile(values[3 * i + 2]) {
          CheckTilesStaysFailed(values, i + 1, |values| / 3);
          return Err(InvalidTile(values[3 * i + 2]));
        }
      }
      r := Ok(());
    }

    /** `GameState.init(values)`. */
    static method Init(values: seq<int>) returns (r: Result<GameState, Error>)
      requires |values| % 3 == 0
      ensures r.Ok? <==> InitGame(values).Ok?
      ensures r.Ok? ==> fresh(r.value) && fresh(r.value.tiles) && r.value.State() == InitGame(values).value
    {
      var checked := CheckTileIds(values);
      if checked.Err? {
        return Err(checked.error);
      }
      var pixels := AllTriples(values);
      if pixels == [] {
        return Err(EmptyMax);
      }
      assert InitGame(values) == SetAll(Fresh(Max(Xs(pixels)) + 1, Max(Ys(pixels)) + 1), pixels, |pixels|);
      var gs := new GameState(Max(Xs(pixels)) + 1, Max(Ys(pixels)) + 1);
      var s := gs.SetTiles(pixels);
      if s.Err? {
        return Err(s.error);
      }
      r := Ok(gs);
    }
  }
}
