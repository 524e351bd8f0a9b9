/** The earlier interpreter of d05.py: class IntCodeRunner.

    It decodes, fetches, loads and stores exactly as the interpreter of
    aoc/intcode.py does, so its instructions are specified by IntCode.Exec. It
    differs in three ways: its memory is the caller's list, written in place
    (here an array the caller keeps a reference to); its inputs are fixed when
    it is constructed; and it has no halt flag, since opcode 99 leaves the loop
    with `break` and `run` returns `memory[0]`. A READ that finds no input left
    asks the console instead, which this model does not follow: the run stops
    there with ConsoleInput. */
module Day05 {
  import opened Wrappers
  import opened Lists
  import opened IntCode

  /** How one pass of the `while True` loop ends. */
  datatype Outcome = Continue | Break | Raised(e: Raise) | ConsoleRead

  /** How `run` ends: it returns `memory[0]`, would read the console, raises, or
      has not ended after the given number of instructions. */
  datatype Result05 = Returned(mem0: int) | ConsoleInput | Failed(e: Raise) | Exhausted

  /** One pass of the loop, in terms of the later interpreter's instruction:
      opcode 99 breaks out instead of setting a flag, and the suspension of a
      READ without input is where d05.py reads the console. */
  function Step05(m: Machine): (Machine, Outcome)
    requires !m.halted
  {
    var s := Exec(m);
    match s.outcome
    case Ok(_) => if s.m.halted then (s.m.(halted := false), Break) else (s.m, Continue)
    case Err(e) => (s.m, if e == WaitingOnInput then ConsoleRead else Raised(e))
  }

  /** `run`, executing at most `fuel` instructions. */
  function Run05(m: Machine, fuel: nat): (Machine, Result05)
    requires !m.halted
    decreases fuel
  {
    if fuel == 0 then (m, Exhausted)
    else
      var (m', o) := Step05(m);
      match o
      case Continue => Run05(m', fuel - 1)
      case Break => (m', match Fetch(m'.mem, 0) case Ok(v) => Returned(v) case Err(e) => Failed(e))
      case Raised(e) => (m', Failed(e))
      case ConsoleRead => (m', ConsoleInput)
  }

  /** The later interpreter's answer that corresponds to a d05 answer. */
  function AsRunResult(r: Result05): RunResult
  {
    match r
    case Returned(v) => Halted(v)
    case ConsoleInput => AwaitingInput
    case Failed(e) => Error(e)
    case Exhausted => OutOfFuel
  }

  /** d05's `run` and the later `run` end alike from `m` with `fuel`: the
      same answer, final memory, outputs and remaining inputs. */
  predicate Agree(m: Machine, fuel: nat)
    requires !m.halted
  {
    var (m5, r5) := Run05(m, fuel);
    var r := Execute(m, fuel);
    r.result == AsRunResult(r5) && r.m.mem == m5.mem && r.m.outputs == m5.outputs && r.m.inputs == m5.inputs
  }

  /** An instruction that halts ends both runs with `memory[0]`. */
  lemma AgreeOnHalt(m: Machine, fuel: nat)
    requires !m.halted && fuel > 0 && Exec(m).outcome.Ok? && Exec(m).m.halted
    ensures Agree(m, fuel)
  {
    var s := Exec(m);
    assert Execute(m, fuel) == IntCode.Continue(m, fuel - 1) == Execute(s.m, fuel - 1) == Ran(s.m, Final(s.m));
  }

  /** An instruction that raises ends both runs with that exception, a
      suspension standing for d05's console read. */
  lemma AgreeOnRaise(m: Machine, fuel: nat)
    requires !m.halted && fuel > 0 && Exec(m).outcome.Err?
    ensures Agree(m, fuel)
  {
    assert Execute(m, fuel) == IntCode.Continue(m, fuel - 1);
  }

  /** The two interpreters agree: on the same program, inputs and fuel, d05's
      `run` returns `memory[0]` exactly when the later `run` does, with the same
      value, the same final memory and the same outputs; where d05 would read
      the console the later one suspends, and they raise the same errors. */
  lemma {:induction false} AgreesWithIntCode(m: Machine, fuel: nat)
    requires !m.halted
    ensures Agree(m, fuel)
    decreases fuel
  {
    if fuel > 0 {
      var s := Exec(m);
      if s.outcome.Ok? && !s.m.halted {
        assert Execute(m, fuel) == IntCode.Continue(m, fuel - 1) == Execute(s.m, fuel - 1);
        assert Run05(m, fuel) == Run05(s.m, fuel - 1);
        AgreesWithIntCode(s.m, fuel - 1);
      } else if s.outcome.Ok? {
        AgreeOnHalt(m, fuel);
      } else {
        AgreeOnRaise(m, fuel);
      }
    }
  }

  /** The loop is left by `break` exactly at a word whose opcode is 99, and that
      pass changes nothing but ip. */
  lemma BreakOnlyAtHalt(m: Machine)
    requires !m.halted
    ensures Step05(m).1 == Break <==> Fetch(m.mem, m.ip).Ok? && Fetch(m.mem, m.ip).value % 100 == 99
    ensures Step05(m).1 == Break ==> Step05(m).0 == m.(ip := m.ip + 1)
  {
  }

  class IntCodeRunner05 {
    /** The caller's list, written in place. */
    const mem: array<int>
    var ip: int
    var inputs: seq<int>
    /** What `_print` has written to the console, in order. */
    var outputs: seq<int>

    function State(): Machine
      reads this, mem
    {
      Machine(mem[..], ip, false, inputs, outputs)
    }

    /** `__init__`: keeps a reference to the caller's list, fixes the inputs. */
    constructor (memory: array<int>, inputs: seq<int>)
      ensures mem == memory && State() == Machine(memory[..], 0, false, inputs, [])
    {
      mem := memory;
      ip := 0;
      this.inputs := inputs;
      outputs := [];
    }

    /** `_next_op`. */
    method NextOp() returns (r: Result<int, Raise>)
      modifies this`ip
      ensures r == Fetch(mem[..], old(ip))
      ensures ip == if r.Ok? then old(ip) + 1 else old(ip)
    {
      var k := Subscript(mem.Length, ip);
      if k.None? {
        return Err(IndexError);
      }
      r := Ok(mem[k.value]);
      ip := ip + 1;
    }

    /** `_ld`. */
    method Ld(addr: int, mode: int) returns (r: Result<int, Raise>)
      ensures r == Load(mem[..], addr, mode)
    {
      if mode == 0 {
        var k := Subscript(mem.Length, addr);
        if k.None? {
          return Err(IndexError);
        }
        r := Ok(mem[k.value]);
      } else if mode == 1 {
        r := Ok(addr);
      } else {
        r := Err(UnsupportedMode(mode));
      }
    }

    /** `_st`: writes the caller's list. */
    method St(addr: int, v: int) returns (r: Result<(), Raise>)
      modifies mem
      ensures Stepped(State(), r) == Store(old(State()), addr, v)
    {
      var k := Subscript(mem.Length, addr);
      if k.None? {
        return Err(IndexError);
      }
      mem[k.value] := v;
      r := Ok(());
    }

    /** The READ branch: `_read` takes the next fixed input; with none left
        d05.py reads the console, where this model stops. */
    method Input() returns (r: Result<(), Raise>)
      modifies this, mem
      ensures Stepped(State(), r) == Perform(3, [], old(State()))
    {
      OneOperand(mem[..], ip);
      var out :- NextOp();
      if inputs == [] {
        // d05.py never stops or rewinds here; the rewind only leaves the
        // stopped run where the shared interpreter's suspension leaves it.
        ip := ip - 2;
        return Err(WaitingOnInput);
      }
      var v := inputs[0];
      inputs := inputs[1..];
      r := St(out, v);
    }

    /** The WRITE branch: `_print` writes the loaded value. */
    method Output(modes: seq<int>) returns (r: Result<(), Raise>)
      modifies this
      ensures Stepped(State(), r) == Perform(4, modes, old(State()))
    {
      OneOperand(mem[..], ip);
      var addr :- NextOp();
      var v :- Ld(addr, ModeAt(modes, 0));
      outputs := outputs + [v];
      r := Ok(());
    }

    /** The ADD and MUL branches. */
    method Arithmetic(op: int, modes: seq<int>) returns (r: Result<(), Raise>)
      requires op == 1 || op == 2
      modifies this, mem
      ensures Stepped(State(), r) == Perform(op, modes, old(State()))
    {
      var args :- FetchThree();
      var v1 :- Ld(args[0], ModeAt(modes, 0));
      var v2 :- Ld(args[1], ModeAt(modes, 1));
      r := St(args[2], if op == 1 then v1 + v2 else v1 * v2);
    }

    /** The three `_next_op` calls that start ADD, MUL, LT and EQ. */
    method FetchThree() returns (r: Result<seq<int>, Raise>)
      modifies this`ip
      ensures match Operands(mem[..], old(ip), 3)
              case Err(j) => r == Err(IndexError) && ip == old(ip) + j
              case Ok(args) => r == Ok(args) && ip == old(ip) + 3
    {
      ThreeOperands(mem[..], ip);
      var a :- NextOp();
      var b :- NextOp();
      var c :- NextOp();
      r := Ok([a, b, c]);
    }

    /** The LT and EQ branches. */
    method Compare(op: int, modes: seq<int>) returns (r: Result<(), Raise>)
      requires op == 7 || op == 8
      modifies this, mem
      ensures Stepped(State(), r) == Perform(op, modes, old(State()))
    {
      var args :- FetchThree();
      var v1 :- Ld(args[0], ModeAt(modes, 0));
      var v2 :- Ld(args[1], ModeAt(modes, 1));
      if (op == 7 && v1 < v2) || (op == 8 && v1 == v2) {
        r := St(args[2], 1);
      } else {
        r := St(args[2], 0);
      }
    }

    /** The JNZ and JZ branches. */
    method Jump(op: int, modes: seq<int>) returns (r: Result<(), Raise>)
      requires op == 5 || op == 6
      modifies this
      ensures Stepped(State(), r) == Perform(op, modes, old(State()))
    {
      TwoOperands(mem[..], ip);
      var p1 :- NextOp();
      var p2 :- NextOp();
      var v1 :- Ld(p1, ModeAt(modes, 0));
      var v2 :- Ld(p2, ModeAt(modes, 1));
      if (op == 5 && v1 != 0) || (op == 6 && v1 == 0) {
        ip := v2;
      }
      r := Ok(());
    }

    /** One pass of the `while True` loop. */
    method Step() returns (o: Outcome)
      modifies this, mem
      ensures (State(), o) == Step05(old(State()))
    {
      var w := NextOp();
      if w.Err? {
        return Raised(w.error);
      }
      var op, modes := DecodeOp(w.value);
      var r: Result<(), Raise>;
      if op == 1 || op == 2 {
        r := Arithmetic(op, modes);
      } else if op == 7 || op == 8 {
        r := Compare(op, modes);
      } else if op == 3 {
        r := Input();
      } else if op == 4 {
        r := Output(modes);
      } else if op == 5 || op == 6 {
        r := Jump(op, modes);
      } else if op == 99 {
        return Break;
      } else {
        return Raised(UnsupportedOp(op));
      }
      o := if r.Ok? then Continue else if r.error == WaitingOnInput then ConsoleRead else Raised(r.error);
    }

    /** `run`: executes instructions until opcode 99, then returns `memory[0]`;
        at most `fuel` instructions are executed. */
    method Run(fuel: nat) returns (r: Result05)
      modifies this, mem
      ensures (State(), r) == Run05(old(State()), fuel)
    {
      var budget := fuel;
      while true
        invariant Run05(State(), budget) == Run05(old(State()), fuel)
        decreases budget
      {
        if budget == 0 {
          return Exhausted;
        }
        var o := Step();
        if o == Break {
          var v := Ld(0, 0);
          return if v.Ok? then Returned(v.value) else Failed(v.error);
        } else if o.Raised? {
          return Failed(o.e);
        } else if o == ConsoleRead {
          return ConsoleInput;
        }
        budget := budget - 1;
      }
    }
  }
}
