/** Day 2 (aoc/d02.py): run a program with a noun written at address 1 and a
    verb at address 2, read address 0 after the halt, and search the 100 x 100
    noun/verb pairs for the one that gives an expected output. */
module Day02 {
  import opened Wrappers
  import opened Lists
  import opened IntCode

  /** Why `get_program_output` or `get_input_for_output` gives no number: an
      exception of the interpreter (a READ, which finds no input here, raises
      WaitingOnInput), a run that has not halted within the fuel, or no pair
      giving the expected output. */
  datatype Failure = Raised(e: Raise) | NoHalt | NotFound

  /** `program[i] = x` when `x` is not None; the assignment raises IndexError
      outside the list. */
  function Poke(program: seq<int>, i: int, x: Option<int>): Result<seq<int>, Failure>
  {
    if x.None? then Ok(program)
    else match Subscript(|program|, i)
      case None => Err(Raised(IndexError))
      case Some(k) => Ok(program[k := x.value])
  }

  /** The program with its noun and verb written in. */
  function Patched(program: seq<int>, n: Option<int>, v: Option<int>): Result<seq<int>, Failure>
  {
    var p :- Poke(program, 1, n);
    Poke(p, 2, v)
  }

  /** `get_program_output`: run the patched program without inputs, at most
      `fuel` instructions, then read address 0. */
  function ProgramOutput(program: seq<int>, n: Option<int>, v: Option<int>, fuel: nat): Result<int, Failure>
  {
    var p :- Patched(program, n, v);
    match Execute(Boot(p), fuel).result
    case Halted(x) => Ok(x)
    case AwaitingInput => Err(Raised(WaitingOnInput))
    case Error(e) => Err(Raised(e))
    case OutOfFuel => Err(NoHalt)
  }

  /** The output for the `k`-th pair of the search: noun `k / 100`, verb `k % 100`. */
  function OutputAt(program: seq<int>, fuel: nat, k: nat): Result<int, Failure>
  {
    ProgramOutput(program, Some(k / 100), Some(k % 100), fuel)
  }

  /** The `k`-th pair runs to a halt and its output is not the expected one. */
  predicate Misses(program: seq<int>, expected: int, fuel: nat, k: nat)
  {
    OutputAt(program, fuel, k).Ok? && OutputAt(program, fuel, k).value != expected
  }

  /** The two nested loops of `get_input_for_output`, from the `k`-th pair on:
      the first pair whose output is the expected one gives `100 * n + v`; an
      exception of a run leaves the search; no pair left raises. */
  function Search(program: seq<int>, expected: int, fuel: nat, k: nat): Result<int, Failure>
    decreases 10000 - k
  {
    if k >= 10000 then Err(NotFound)
    else match OutputAt(program, fuel, k)
      case Err(e) => Err(e)
      case Ok(x) => if x == expected then Ok(k) else Search(program, expected, fuel, k + 1)
  }

  // ---------------------------------------------------------------------------
  // Properties

  /** Both pokes succeed exactly when the program has at least three words, and
      then the program differs from the input only at addresses 1 and 2. */
  lemma PatchedProgram(program: seq<int>, n: int, v: int)
    ensures Patched(program, Some(n), Some(v)).Ok? <==> |program| >= 3
    ensures Patched(program, Some(n), Some(v)).Ok? ==>
              var p := Patched(program, Some(n), Some(v)).value;
              |p| == |program| && p[1] == n && p[2] == v &&
              forall i :: 0 <= i < |p| && i != 1 && i != 2 ==> p[i] == program[i]
    ensures Patched(program, None, None) == Ok(program)
  {
  }

  /** `get_program_output` returns a number exactly when the patched program
      halts within the fuel and address 0 exists; the number is what the halted
      machine holds at address 0, and it has written no outputs it could hand
      over to anyone. */
  lemma OutputIsAddressZero(program: seq<int>, n: Option<int>, v: Option<int>, fuel: nat)
    requires Patched(program, n, v).Ok?
    ensures var r := Execute(Boot(Patched(program, n, v).value), fuel);
            ProgramOutput(program, n, v, fuel).Ok? <==> r.m.halted && |r.m.mem| > 0
    ensures var r := Execute(Boot(Patched(program, n, v).value), fuel);
            ProgramOutput(program, n, v, fuel).Ok? ==> ProgramOutput(program, n, v, fuel).value == r.m.mem[0]
  {
    var p := Patched(program, n, v).value;
    RunOutcomes(Boot(p), fuel);
  }

  /** What the search finds, from the `k`-th pair on: a found `x` is a pair
      whose output is the expected one, every pair before it misses, and `x`
      encodes the noun and verb as `100 * n + v`; NotFound is raised exactly when
      every remaining pair misses; another failure is the one of the first
      pair that does not halt, all pairs before it missing. */
  lemma {:induction false} SearchFinds(program: seq<int>, expected: int, fuel: nat, k: nat)
    ensures var r := Search(program, expected, fuel, k);
            r.Ok? ==> k <= r.value < 10000 && OutputAt(program, fuel, r.value) == Ok(expected) &&
                      forall j :: k <= j < r.value ==> Misses(program, expected, fuel, j)
    ensures Search(program, expected, fuel, k) == Err(NotFound) <==>
              forall j :: k <= j < 10000 ==> Misses(program, expected, fuel, j)
    ensures var r := Search(program, expected, fuel, k);
            r.Err? && r.error != NotFound ==>
              exists j :: k <= j < 10000 && OutputAt(program, fuel, j) == Err(r.error) &&
                          forall i :: k <= i < j ==> Misses(program, expected, fuel, i)
    decreases 10000 - k
  {
    if k < 10000 {
      var o := OutputAt(program, fuel, k);
      if o.Ok? && o.value != expected {
        SearchFinds(program, expected, fuel, k + 1);
        var r := Search(program, expected, fuel, k);
        if r.Err? && r.error != NotFound {
          var j :| k + 1 <= j < 10000 && OutputAt(program, fuel, j) == Err(r.error) &&
                   forall i :: k + 1 <= i < j ==> Misses(program, expected, fuel, i);
          assert forall i :: k <= i < j ==> Misses(program, expected, fuel, i);
        }
      } else {
        OutputNeverNotFound(program, Some(k / 100), Some(k % 100), fuel);
        assert !Misses(program, expected, fuel, k);
      }
    }
  }

  /** The search never raises NotFound because of a single run: a run's own
      failure is never NotFound. */
  lemma OutputNeverNotFound(program: seq<int>, n: Option<int>, v: Option<int>, fuel: nat)
    ensures ProgramOutput(program, n, v, fuel) != Err(NotFound)
  {
  }

  // ---------------------------------------------------------------------------
  // The functions as written, on the interpreter object

  /** `get_program_output`, with the program already split into integers. */
  method GetProgramOutput(program: seq<int>, n: Option<int>, v: Option<int>, fuel: nat) returns (r: Result<int, Failure>)
    ensures r == ProgramOutput(program, n, v, fuel)
  {
    var p := program;
    if n.Some? {
      var k := Subscript(|p|, 1);
      if k.None? {
        return Err(Raised(IndexError));
      }
      p := p[k.value := n.value];
    }
    if v.Some? {
      var k := Subscript(|p|, 2);
      if k.None? {
        return Err(Raised(IndexError));
      }
      p := p[k.value := v.value];
    }
    var cpu := new IntCodeRunner(p, 0);
    var result := cpu.Run([], fuel);
    assert Boot(p).(inputs := []) == Boot(p);
    RunOutcomes(Boot(p), fuel);
    if result.AwaitingInput? {
      return Err(Raised(WaitingOnInput));
    } else if result.Error? {
      return Err(Raised(result.raised));
    } else if result.OutOfFuel? {
      return Err(NoHalt);
    }
    var x := cpu.Ld(0, 0);
    assert x.Ok?;
    r := Ok(x.value);
  }

  /** `get_input_for_output`. */
  method GetInputForOutput(program: seq<int>, expected: int, fuel: nat) returns (r: Result<int, Failure>)
    ensures r == Search(program, expected, fuel, 0)
  {
    for n := 0 to 100
      invariant Search(program, expected, fuel, 100 * n) == Search(program, expected, fuel, 0)
    {
      for v := 0 to 100
        invariant Search(program, expected, fuel, 100 * n + v) == Search(program, expected, fuel, 0)
      {
        assert (100 * n + v) / 100 == n && (100 * n + v) % 100 == v;
        var o := GetProgramOutput(program, Some(n), Some(v), fuel);
        if o.Err? {
          return Err(o.error);
        }
        if o.value == expected {
          return Ok(100 * n + v);
        }
      }
    }
    r := Err(NotFound);
  }
}
