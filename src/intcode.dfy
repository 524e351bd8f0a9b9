/** The IntCode interpreter of aoc/intcode.py: class IntCodeRunner.

    The semantics is given twice. The functions Exec (one instruction) and
    Execute (the run loop, with a fuel bound) say what the interpreter does to a
    Machine value; the class IntCodeRunner is the interpreter itself, with the
    fields the Python class updates in place, and each of its methods is proved
    to do what those functions say. The lemmas state the properties of the
    instruction set on the functions. */
module IntCode {
  import opened Wrappers
  import opened Lists

  /** What the interpreter raises. WaitingOnInput is the suspension signal of a
      READ that found no input left; the others abort the current instruction. */
  datatype Raise = WaitingOnInput | UnsupportedOp(op: int) | UnsupportedMode(mode: int) | IndexError

  // ---------------------------------------------------------------------------
  // Decoding an instruction word

  /** The decimal digits of `n`, least significant first; none when n <= 0
      (the digit-peeling loop `while op > 0` of `_decode_op`). */
  function Digits(n: int): seq<int>
    decreases n
  {
    if n <= 0 then [] else [n % 10] + Digits(n / 10)
  }

  /** The number whose decimal digits, least significant first, are `ds`. */
  function FromDigits(ds: seq<int>): int
  {
    if ds == [] then 0 else ds[0] + 10 * FromDigits(ds[1..])
  }

  /** Digit lists as Digits produces them: each in 0..9, the last one non-zero. */
  predicate Canonical(ds: seq<int>)
  {
    (forall i :: 0 <= i < |ds| ==> 0 <= ds[i] <= 9) && (ds != [] ==> ds[|ds| - 1] != 0)
  }

  lemma {:induction false} DigitsRoundTrip(n: int)
    ensures Canonical(Digits(n))
    ensures FromDigits(Digits(n)) == if n <= 0 then 0 else n
    decreases n
  {
    if n > 0 {
      DigitsRoundTrip(n / 10);
      var ds := Digits(n);
      assert ds == [n % 10] + Digits(n / 10);
      assert ds[1..] == Digits(n / 10);
    }
  }

  lemma {:induction false} FromDigitsRoundTrip(ds: seq<int>)
    requires Canonical(ds)
    ensures FromDigits(ds) >= 0 && (ds != [] ==> FromDigits(ds) > 0)
    ensures Digits(FromDigits(ds)) == ds
  {
    if ds != [] {
      var rest := ds[1..];
      assert Canonical(rest) by {
        assert forall i :: 0 <= i < |rest| ==> rest[i] == ds[i + 1];
      }
      FromDigitsRoundTrip(rest);
      var n := FromDigits(ds);
      assert n == ds[0] + 10 * FromDigits(rest);
      assert rest == [] ==> ds[0] != 0;
      assert n % 10 == ds[0] && n / 10 == FromDigits(rest);
      assert ds == [ds[0]] + rest;
    }
  }

  /** `_decode_op`: the opcode is the word modulo 100 and the parameter modes are
      the decimal digits of the word div 100, least significant first. For the
      positive divisors used here Python's `%` and `//` agree with Dafny's. */
  function Decode(word: int): (int, seq<int>)
  {
    (word % 100, Digits(word / 100))
  }

  /** The instruction word with opcode `op` and parameter modes `modes`. */
  function Encode(op: int, modes: seq<int>): int
  {
    op + 100 * FromDigits(modes)
  }

  lemma DecodeEncode(op: int, modes: seq<int>)
    requires 0 <= op < 100 && Canonical(modes)
    ensures Decode(Encode(op, modes)) == (op, modes)
  {
    FromDigitsRoundTrip(modes);
    var w := Encode(op, modes);
    assert w % 100 == op && w / 100 == FromDigits(modes);
  }

  lemma EncodeDecode(word: int)
    requires word >= 0
    ensures 0 <= Decode(word).0 < 100 && Canonical(Decode(word).1)
    ensures Encode(Decode(word).0, Decode(word).1) == word
  {
    DigitsRoundTrip(word / 100);
  }

  /** The mode of the i-th loaded parameter: `next(modes, 0)` called for the
      i-th time, so missing modes are 0 (position). */
  function ModeAt(modes: seq<int>, i: nat): int
  {
    if i < |modes| then modes[i] else 0
  }

  /** The method form of `_decode_op`, with its digit-peeling loop. */
  method DecodeOp(word: int) returns (opcode: int, modes: seq<int>)
    ensures (opcode, modes) == Decode(word)
  {
    opcode := word % 100;
    modes := [];
    var op := word / 100;
    while op > 0
      invariant modes + Digits(op) == Digits(word / 100)
      decreases op
    {
      assert Digits(op) == [op % 10] + Digits(op / 10);
      modes := modes + [op % 10];
      op := op / 10;
    }
    assert Digits(op) == [] && modes + [] == modes;
  }

  // ---------------------------------------------------------------------------
  // Machine states and one instruction

  /** The state of an interpreter: memory `_intcodes`, instruction address `_ip`,
      halt flag `_halt`, the inputs not yet consumed, and the queued `_outputs`. */
  datatype Machine = Machine(mem: seq<int>, ip: int, halted: bool, inputs: seq<int>, outputs: seq<int>)

  /** A freshly constructed interpreter. */
  function Boot(program: seq<int>): Machine
  {
    Machine(program, 0, false, [], [])
  }

  /** The state after one instruction, and whether it returned or raised. */
  datatype Stepped = Stepped(m: Machine, outcome: Result<(), Raise>)

  predicate IsOpcode(op: int)
  {
    1 <= op <= 8 || op == 99
  }

  /** The number of parameters that follow each opcode's word. */
  function Arity(op: int): nat
  {
    if op == 1 || op == 2 || op == 7 || op == 8 then 3
    else if op == 5 || op == 6 then 2
    else if op == 3 || op == 4 then 1
    else 0
  }

  /** `self._intcodes[addr]`, with Python's subscript rules. */
  function Fetch(mem: seq<int>, addr: int): Result<int, Raise>
  {
    match Subscript(|mem|, addr)
    case None => Err(IndexError)
    case Some(k) => Ok(mem[k])
  }

  /** The `n` words from `at` on, or the number of words fetched before the
      first one that is out of range. */
  function Operands(mem: seq<int>, at: int, n: nat): (r: Result<seq<int>, nat>)
    ensures r.Ok? ==> |r.value| == n
    ensures r.Err? ==> r.error < n
    decreases n
  {
    if n == 0 then Ok([])
    else match Fetch(mem, at)
      case Err(_) => Err(0)
      case Ok(w) =>
        match Operands(mem, at + 1, n - 1)
        case Ok(rest) => Ok([w] + rest)
        case Err(j) => Err(j + 1)
  }

  // Operands unfolded for the parameter counts that occur.
  lemma OneOperand(mem: seq<int>, at: int)
    ensures Operands(mem, at, 1) == match Fetch(mem, at) case Ok(a) => Ok([a]) case Err(_) => Err(0)
  {
    if Fetch(mem, at).Ok? {
      var a := Fetch(mem, at).value;
      assert Operands(mem, at + 1, 0) == Ok([]);
      assert [a] + [] == [a];
    }
  }

  lemma TwoOperands(mem: seq<int>, at: int)
    ensures Operands(mem, at, 2) ==
      match Fetch(mem, at)
      case Err(_) => Err(0)
      case Ok(a) => match Fetch(mem, at + 1) case Ok(b) => Ok([a, b]) case Err(_) => Err(1)
  {
    OneOperand(mem, at + 1);
    if Fetch(mem, at).Ok? && Fetch(mem, at + 1).Ok? {
      var a, b := Fetch(mem, at).value, Fetch(mem, at + 1).value;
      assert [a] + [b] == [a, b];
    }
  }

  lemma ThreeOperands(mem: seq<int>, at: int)
    ensures Operands(mem, at, 3) ==
      match Fetch(mem, at)
      case Err(_) => Err(0)
      case Ok(a) =>
        match Fetch(mem, at + 1)
        case Err(_) => Err(1)
        case Ok(b) => match Fetch(mem, at + 2) case Ok(c) => Ok([a, b, c]) case Err(_) => Err(2)
  {
    TwoOperands(mem, at + 1);
    if Fetch(mem, at).Ok? && Fetch(mem, at + 1).Ok? && Fetch(mem, at + 2).Ok? {
      var a, b, c := Fetch(mem, at).value, Fetch(mem, at + 1).value, Fetch(mem, at + 2).value;
      assert [a] + [b, c] == [a, b, c];
    }
  }

  /** `_ld`: position mode reads memory, immediate mode is the parameter itself,
      and every other mode raises "Unsupported mode". */
  function Load(mem: seq<int>, addr: int, mode: int): Result<int, Raise>
  {
    if mode == 0 then Fetch(mem, addr)
    else if mode == 1 then Ok(addr)
    else Err(UnsupportedMode(mode))
  }

  /** The two loads of ADD, MUL, JNZ, JZ, LT and EQ, in order. */
  function LoadPair(mem: seq<int>, args: seq<int>, modes: seq<int>): Result<(int, int), Raise>
    requires |args| >= 2
  {
    var v1 :- Load(mem, args[0], ModeAt(modes, 0));
    var v2 :- Load(mem, args[1], ModeAt(modes, 1));
    Ok((v1, v2))
  }

  /** `_st`: writes one cell; the destination's mode is never consulted. */
  function Store(m: Machine, addr: int, v: int): Stepped
  {
    match Subscript(|m.mem|, addr)
    case None => Stepped(m, Err(IndexError))
    case Some(k) => Stepped(m.(mem := m.mem[k := v]), Ok(()))
  }

  /** Executes a decoded instruction whose parameters `args` have been fetched;
      `m.ip` already points past them. */
  function Dispatch(op: int, modes: seq<int>, args: seq<int>, m: Machine): Stepped
    requires IsOpcode(op) && |args| == Arity(op)
  {
    if op == 99 then Stepped(m.(halted := true), Ok(()))
    else if op == 3 then
      if m.inputs == [] then Stepped(m.(ip := m.ip - 2), Err(WaitingOnInput))
      else Store(m.(inputs := m.inputs[1..]), args[0], m.inputs[0])
    else if op == 4 then
      match Load(m.mem, args[0], ModeAt(modes, 0))
      case Err(e) => Stepped(m, Err(e))
      case Ok(v) => Stepped(m.(outputs := m.outputs + [v]), Ok(()))
    else
      match LoadPair(m.mem, args, modes)
      case Err(e) => Stepped(m, Err(e))
      case Ok((v1, v2)) =>
        if op == 1 then Store(m, args[2], v1 + v2)
        else if op == 2 then Store(m, args[2], v1 * v2)
        else if op == 5 then Stepped(if v1 != 0 then m.(ip := v2) else m, Ok(()))
        else if op == 6 then Stepped(if v1 == 0 then m.(ip := v2) else m, Ok(()))
        else if op == 7 then Store(m, args[2], if v1 < v2 then 1 else 0)
        else Store(m, args[2], if v1 == v2 then 1 else 0)
  }

  /** The rest of an instruction once its word is decoded (`m.ip` points past
      the word): fetch the parameters, then execute. */
  function Perform(op: int, modes: seq<int>, m: Machine): Stepped
    requires IsOpcode(op)
  {
    match Operands(m.mem, m.ip, Arity(op))
    case Err(j) => Stepped(m.(ip := m.ip + j), Err(IndexError))
    case Ok(args) => Dispatch(op, modes, args, m.(ip := m.ip + Arity(op)))
  }

  /** One iteration of the loop in `run`: fetch and decode the word at ip, fetch
      the parameters, then load, compute and store or jump. Every opcode fetches
      all its parameters before its first load, so this order is the source's.
      Every instruction keeps what `Keeps` lists. */
  function Exec(m: Machine): (s: Stepped)
    ensures Keeps(m, s)
  {
    match Fetch(m.mem, m.ip)
    case Err(e) => Stepped(m, Err(e))
    case Ok(word) =>
      var (op, modes) := Decode(word);
      if !IsOpcode(op) then Stepped(m.(ip := m.ip + 1), Err(UnsupportedOp(op)))
      else
        PerformKeeps(op, modes, m.(ip := m.ip + 1));
        Perform(op, modes, m.(ip := m.ip + 1))
  }

  // ---------------------------------------------------------------------------
  // The run loop

  /** How `run` ends: it returns `memory[0]`, or raises WaitingOnInput, or raises
      another exception. OutOfFuel stands for a run that has not ended after the
      given number of instructions (the source loops for ever). */
  datatype RunResult = Halted(mem0: int) | AwaitingInput | Error(raised: Raise) | OutOfFuel

  datatype Ran = Ran(m: Machine, result: RunResult)

  /** The normal return of `run`: `self._ld(0)`. */
  function Final(m: Machine): RunResult
  {
    match Fetch(m.mem, 0)
    case Ok(v) => Halted(v)
    case Err(e) => Error(e)
  }

  /** The `while not self._halt` loop, executing at most `fuel` instructions. */
  function Execute(m: Machine, fuel: nat): Ran
    decreases fuel, 0
  {
    if m.halted then Ran(m, Final(m))
    else if fuel == 0 then Ran(m, OutOfFuel)
    else Continue(m, fuel - 1)
  }

  /** The loop body: one instruction, then the loop again with `fuel` left; an
      exception leaves the loop. */
  function Continue(m: Machine, fuel: nat): Ran
    decreases fuel, 1
  {
    var s := Exec(m);
    match s.outcome
    case Ok(_) => Execute(s.m, fuel)
    case Err(e) => Ran(s.m, if e == WaitingOnInput then AwaitingInput else Error(e))
  }

  /** `run(inputs)`: the input iterator is replaced, whatever was left of the old one. */
  function RunWith(m: Machine, inputs: seq<int>, fuel: nat): Ran
  {
    Execute(m.(inputs := inputs), fuel)
  }

  // ---------------------------------------------------------------------------
  // Properties of one instruction

  /** The decoding examples of the interpreter's tests. */
  lemma DecodeExamples()
    ensures Decode(101102) == (2, [1, 1, 0, 1])
    ensures Decode(1) == (1, [])
  {
    assert Digits(0) == [];
    assert Digits(1) == [1] + Digits(0);
    assert Digits(10) == [0] + Digits(1);
    assert Digits(101) == [1] + Digits(10);
    assert Digits(1011) == [1] + Digits(101);
    assert Digits(1011) == [1, 1, 0, 1];
    assert 101102 / 100 == 1011 && 101102 % 100 == 2;
  }

  /** Position mode reads memory (a negative address counting from the end, as a
      Python subscript does), immediate mode is the parameter itself, and every
      other mode, relative mode 2 included, raises "Unsupported mode". */
  lemma LoadModes(mem: seq<int>, addr: int, mode: int)
    ensures mode == 0 && 0 <= addr < |mem| ==> Load(mem, addr, mode) == Ok(mem[addr])
    ensures mode == 0 && (addr >= |mem| || addr < -|mem|) ==> Load(mem, addr, mode) == Err(IndexError)
    ensures mode == 1 ==> Load(mem, addr, mode) == Ok(addr)
    ensures mode != 0 && mode != 1 ==> Load(mem, addr, mode) == Err(UnsupportedMode(mode))
  {
  }

  /** ADD, MUL, LT and EQ that complete change exactly one memory cell, the one
      their third parameter names whatever its mode, and move ip 4 words on; the
      cell receives the sum, the product, or 1 or 0 for the comparison. */
  lemma ArithmeticWritesOnlyDestination(m: Machine, word: int, a: int, b: int, dst: int)
    requires Fetch(m.mem, m.ip) == Ok(word)
    requires var op := word % 100; op == 1 || op == 2 || op == 7 || op == 8
    requires Operands(m.mem, m.ip + 1, 3) == Ok([a, b, dst])
    requires Exec(m).outcome.Ok?
    ensures Subscript(|m.mem|, dst).Some?
    ensures var k := Subscript(|m.mem|, dst).value;
            var after := Exec(m).m;
            after == m.(mem := m.mem[k := after.mem[k]], ip := m.ip + 4)
    ensures var k := Subscript(|m.mem|, dst).value;
            var modes := Decode(word).1;
            var v1 := Load(m.mem, a, ModeAt(modes, 0));
            var v2 := Load(m.mem, b, ModeAt(modes, 1));
            var op := word % 100;
            v1.Ok? && v2.Ok? &&
            Exec(m).m.mem[k] ==
              if op == 1 then v1.value + v2.value
              else if op == 2 then v1.value * v2.value
              else if op == 7 then (if v1.value < v2.value then 1 else 0)
              else (if v1.value == v2.value then 1 else 0)
    ensures var op := word % 100; var k := Subscript(|m.mem|, dst).value;
            op == 7 || op == 8 ==> Exec(m).m.mem[k] == 0 || Exec(m).m.mem[k] == 1
  {
  }

  /** JNZ and JZ set ip to the second parameter's value when the condition holds,
      and otherwise leave it 3 words past the opcode; nothing else changes. */
  lemma JumpTarget(m: Machine, word: int, p1: int, p2: int, v1: int, v2: int)
    requires Fetch(m.mem, m.ip) == Ok(word)
    requires word % 100 == 5 || word % 100 == 6
    requires Operands(m.mem, m.ip + 1, 2) == Ok([p1, p2])
    requires Load(m.mem, p1, ModeAt(Decode(word).1, 0)) == Ok(v1)
    requires Load(m.mem, p2, ModeAt(Decode(word).1, 1)) == Ok(v2)
    ensures var taken := if word % 100 == 5 then v1 != 0 else v1 == 0;
            Exec(m) == Stepped(m.(ip := if taken then v2 else m.ip + 3), Ok(()))
  {
  }

  /** A READ that finds no input left changes nothing at all: ip is rewound to
      the READ's own word, and WaitingOnInput is raised. */
  lemma ReadWithoutInputSuspends(m: Machine, word: int)
    requires Fetch(m.mem, m.ip) == Ok(word) && word % 100 == 3
    requires Fetch(m.mem, m.ip + 1).Ok?
    requires m.inputs == []
    ensures Exec(m) == Stepped(m, Err(WaitingOnInput))
  {
    OneOperand(m.mem, m.ip + 1);
  }

  /** A READ with input consumes the first input and stores it in the cell its
      parameter names, whatever that parameter's mode. */
  lemma ReadConsumesInput(m: Machine, word: int, dst: int, k: nat)
    requires Fetch(m.mem, m.ip) == Ok(word) && word % 100 == 3
    requires Fetch(m.mem, m.ip + 1) == Ok(dst) && Subscript(|m.mem|, dst) == Some(k)
    requires m.inputs != []
    ensures Exec(m) == Stepped(m.(mem := m.mem[k := m.inputs[0]], ip := m.ip + 2, inputs := m.inputs[1..]), Ok(()))
  {
    OneOperand(m.mem, m.ip + 1);
  }

  /** WRITE appends the loaded value to the outputs and changes nothing else. */
  lemma WriteAppendsOutput(m: Machine, word: int, p: int, v: int)
    requires Fetch(m.mem, m.ip) == Ok(word) && word % 100 == 4
    requires Fetch(m.mem, m.ip + 1) == Ok(p)
    requires Load(m.mem, p, ModeAt(Decode(word).1, 0)) == Ok(v)
    ensures Exec(m) == Stepped(m.(ip := m.ip + 2, outputs := m.outputs + [v]), Ok(()))
  {
    OneOperand(m.mem, m.ip + 1);
  }

  /** HALT sets the halt flag and moves ip one word on. */
  lemma HaltSetsFlag(m: Machine, word: int)
    requires Fetch(m.mem, m.ip) == Ok(word) && word % 100 == 99
    ensures Exec(m) == Stepped(m.(ip := m.ip + 1, halted := true), Ok(()))
  {
  }

  /** An opcode outside 1..8 and 99 raises "Unsupported op: N" after ip has
      moved past the word, and changes nothing else. */
  lemma UnknownOpcodeRaises(m: Machine, word: int)
    requires Fetch(m.mem, m.ip) == Ok(word) && !IsOpcode(word % 100)
    ensures Exec(m) == Stepped(m.(ip := m.ip + 1), Err(UnsupportedOp(word % 100)))
  {
  }

  /** What every instruction keeps: the memory's size, a set halt flag, the
      outputs so far (at most one is added), the order of the inputs (at most the
      first is consumed); and an instruction that raises changes no memory cell,
      no output and not the halt flag. */
  predicate Keeps(m: Machine, s: Stepped)
  {
    && |s.m.mem| == |m.mem|
    && (m.halted ==> s.m.halted)
    && (s.m.outputs == m.outputs || (|s.m.outputs| == |m.outputs| + 1 && m.outputs <= s.m.outputs))
    && (s.m.inputs == m.inputs || (m.inputs != [] && s.m.inputs == m.inputs[1..]))
    && (s.outcome.Err? ==> s.m.mem == m.mem && s.m.outputs == m.outputs && s.m.halted == m.halted)
  }

  lemma DispatchKeeps(op: int, modes: seq<int>, args: seq<int>, m: Machine)
    requires IsOpcode(op) && |args| == Arity(op)
    ensures Keeps(m, Dispatch(op, modes, args, m))
  {
    if op == 4 {
      match Load(m.mem, args[0], ModeAt(modes, 0))
      case Err(e) =>
      case Ok(v) => assert m.outputs <= m.outputs + [v];
    }
  }

  lemma PerformKeeps(op: int, modes: seq<int>, m: Machine)
    requires IsOpcode(op)
    ensures Keeps(m, Perform(op, modes, m))
  {
    match Operands(m.mem, m.ip, Arity(op))
    case Err(j) =>
    case Ok(args) => DispatchKeeps(op, modes, args, m.(ip := m.ip + Arity(op)));
  }

  /** A suspension hands back exactly the state it started from, so that state
      suspends again for as long as no input is supplied. */
  lemma SuspensionIsStable(m: Machine)
    requires Exec(m).outcome == Err(WaitingOnInput)
    ensures Exec(m).m == m && m.inputs == []
  {
    SuspendedAtRead(m);
    var word := Fetch(m.mem, m.ip).value;
    OneOperand(m.mem, m.ip + 1);
    assert Exec(m) == Perform(3, Decode(word).1, m.(ip := m.ip + 1));
  }

  /** Only a READ whose machine has no input left suspends. */
  lemma SuspendedAtRead(m: Machine)
    requires Exec(m).outcome == Err(WaitingOnInput)
    ensures Fetch(m.mem, m.ip).Ok? && Fetch(m.mem, m.ip).value % 100 == 3
    ensures Fetch(m.mem, m.ip + 1).Ok? && m.inputs == []
  {
    OneOperand(m.mem, m.ip + 1);
  }

  /** Resuming a suspended state with input `v` re-executes the READ from its
      first word: `v` goes to the READ's destination and ip moves past it. */
  lemma ResumeAfterSuspension(m: Machine, v: int, rest: seq<int>)
    requires Exec(m).outcome == Err(WaitingOnInput)
    ensures Fetch(m.mem, m.ip + 1).Ok?
    ensures Exec(m.(inputs := [v] + rest)) == Store(m.(ip := m.ip + 2, inputs := rest), Fetch(m.mem, m.ip + 1).value, v)
  {
    SuspendedAtRead(m);
    var word := Fetch(m.mem, m.ip).value;
    var m' := m.(inputs := [v] + rest);
    OneOperand(m.mem, m.ip + 1);
    assert Exec(m') == Perform(3, Decode(word).1, m'.(ip := m.ip + 1));
    assert ([v] + rest)[1..] == rest;
  }

  // ---------------------------------------------------------------------------
  // Properties of a run

  /** A halted interpreter executes nothing when run again: it returns
      `memory[0]` at once, whatever its inputs and fuel. */
  lemma HaltedRunExecutesNothing(m: Machine, inputs: seq<int>, fuel: nat)
    requires m.halted
    ensures RunWith(m, inputs, fuel) == Ran(m.(inputs := inputs), Final(m))
  {
  }

  /** How a run ends. A normal return comes only with the halt flag set and is
      `memory[0]`; a suspension leaves no input and a state that suspends again;
      the halt flag is never cleared, the memory keeps its size, and outputs
      already produced stay queued, in order; a run that leaves the halt flag set
      ended by returning `memory[0]`. */
  lemma {:induction false} RunOutcomes(m: Machine, fuel: nat)
    ensures var r := Execute(m, fuel);
            && |r.m.mem| == |m.mem|
            && m.outputs <= r.m.outputs
            && (m.halted ==> r.m.halted)
            && (r.result.Halted? ==> r.m.halted && Fetch(r.m.mem, 0) == Ok(r.result.mem0))
            && (r.m.halted ==> r.result == Final(r.m))
            && (r.result.AwaitingInput? ==> !r.m.halted && r.m.inputs == [] && Exec(r.m) == Stepped(r.m, Err(WaitingOnInput)))
    decreases fuel
  {
    if !m.halted && fuel > 0 {
      var s := Exec(m);
      if s.outcome.Ok? {
        RunOutcomes(s.m, fuel - 1);
      } else if s.outcome.error == WaitingOnInput {
        SuspensionIsStable(m);
      }
    }
  }

  // One step of each example below, each in its own small proof.
  lemma AddFirstStep()
    ensures Exec(Boot([1, 5, 6, 7, 99, 5, 8, 0])) == Stepped(Machine([1, 5, 6, 7, 99, 5, 8, 13], 4, false, [], []), Ok(()))
  {
    var m := Boot([1, 5, 6, 7, 99, 5, 8, 0]);
    assert Fetch(m.mem, 0) == Ok(1);
    assert Decode(1) == (1, []) by { DecodeExamples(); }
    ThreeOperands(m.mem, 1);
    assert Operands(m.mem, 1, 3) == Ok([5, 6, 7]);
    assert LoadPair(m.mem, [5, 6, 7], []) == Ok((5, 8));
  }

  lemma HaltStep(m: Machine)
    requires Fetch(m.mem, m.ip) == Ok(99)
    ensures Exec(m) == Stepped(m.(ip := m.ip + 1, halted := true), Ok(()))
  {
    assert Decode(99) == (99, []) by { assert Digits(0) == []; }
  }

  lemma ReadFirstStep(inputs: seq<int>)
    ensures inputs == [] ==> Exec(Machine([3, 3, 99, 0], 0, false, inputs, [])) == Stepped(Machine([3, 3, 99, 0], 0, false, inputs, []), Err(WaitingOnInput))
    ensures inputs == [42] ==> Exec(Machine([3, 3, 99, 0], 0, false, inputs, [])) == Stepped(Machine([3, 3, 99, 42], 2, false, [], []), Ok(()))
  {
    var m := Machine([3, 3, 99, 0], 0, false, inputs, []);
    assert Fetch(m.mem, 0) == Ok(3) && Fetch(m.mem, 1) == Ok(3);
    if inputs == [] {
      ReadWithoutInputSuspends(m, 3);
    } else if inputs == [42] {
      assert Subscript(|m.mem|, 3) == Some(3);
      ReadConsumesInput(m, 3, 3, 3);
      assert [42][1..] == [] && m.mem[3 := 42] == [3, 3, 99, 42];
    }
  }

  /** ADD example from the interpreter's tests: 5 + 6 is stored at address 7. */
  lemma AddExample(program: seq<int>)
    requires program == [1, 5, 6, 7, 99, 5, 8, 0]
    ensures var r := RunWith(Boot(program), [], 2);
            r.result == Halted(1) && r.m.mem[7] == 13
  {
    var m0 := Boot(program);
    var m1 := Machine([1, 5, 6, 7, 99, 5, 8, 13], 4, false, [], []);
    var m2 := m1.(ip := 5, halted := true);
    AddFirstStep();
    HaltStep(m1);
    assert m0.(inputs := []) == m0;
    assert Execute(m0, 2) == Continue(m0, 1) == Execute(m1, 1);
    assert Execute(m1, 1) == Continue(m1, 0) == Execute(m2, 0);
    assert Fetch(m2.mem, 0) == Ok(1);
  }

  /** READ example: without input the run suspends with ip back at the READ;
      the next run with 42 stores it at address 3 and halts. */
  lemma ReadExample(program: seq<int>)
    requires program == [3, 3, 99, 0]
    ensures var r := RunWith(Boot(program), [], 2);
            r.result == AwaitingInput && r.m.ip == 0 &&
            var r2 := RunWith(r.m, [42], 2);
            r2.result == Halted(3) && r2.m.mem[3] == 42
  {
    ReadFirstStep([]);
    ReadFirstStep([42]);
    var m2 := Machine([3, 3, 99, 42], 2, false, [], []);
    HaltStep(m2);
    assert Execute(Boot(program).(inputs := [42]), 2) == Execute(m2, 1);
  }

  // ---------------------------------------------------------------------------
  // The interpreter object

  class IntCodeRunner {
    var mem: seq<int>
    var ip: int
    var halted: bool
    var inputs: seq<int>
    var outputs: seq<int>
    const id: int

    function State(): Machine
      reads this
    {
      Machine(mem, ip, halted, inputs, outputs)
    }

    /** `__init__` with a program already split into integers; the memory is
        owned by this object. */
    constructor (program: seq<int>, id: int)
      ensures State() == Boot(program) && this.id == id
    {
      mem, ip, halted, inputs, outputs := program, 0, false, [], [];
      this.id := id;
    }

    /** `_next_op`: reads the word at ip, then advances ip. */
    method NextOp() returns (r: Result<int, Raise>)
      modifies this`ip
      ensures r == Fetch(mem, old(ip))
      ensures ip == if r.Ok? then old(ip) + 1 else old(ip)
    {
      var k := Subscript(|mem|, ip);
      if k.None? {
        return Err(IndexError);
      }
      r := Ok(mem[k.value]);
      ip := ip + 1;
    }

    /** `_ld`. */
    method Ld(addr: int, mode: int) returns (r: Result<int, Raise>)
      ensures r == Load(mem, addr, mode)
    {
      if mode == 0 {
        var k := Subscript(|mem|, addr);
        if k.None? {
          return Err(IndexError);
        }
        r := Ok(mem[k.value]);
      } else if mode == 1 {
        r := Ok(addr);
      } else {
        r := Err(UnsupportedMode(mode));
      }
    }

    /** `_st`. */
    method St(addr: int, v: int) returns (r: Result<(), Raise>)
      modifies this`mem
      ensures Stepped(State(), r) == Store(old(State()), addr, v)
    {
      var k := Subscript(|mem|, addr);
      if k.None? {
        return Err(IndexError);
      }
      mem := mem[k.value := v];
      r := Ok(());
    }

    /** `_read`: consumes the next input and stores it, or rewinds ip to the READ
        opcode and raises WaitingOnInput. */
    method Read(out: int) returns (r: Result<(), Raise>)
      modifies this`mem, this`ip, this`inputs
      ensures old(inputs) == [] ==> Stepped(State(), r) == Stepped(old(State()).(ip := old(ip) - 2), Err(WaitingOnInput))
      ensures old(inputs) != [] ==> Stepped(State(), r) == Store(old(State()).(inputs := old(inputs)[1..]), out, old(inputs)[0])
    {
      if inputs == [] {
        ip := ip - 2;
        return Err(WaitingOnInput);
      }
      var v := inputs[0];
      inputs := inputs[1..];
      r := St(out, v);
    }

    /** `_print`: appends the loaded value to the outputs. */
    method Print(addr: int, mode: int) returns (r: Result<(), Raise>)
      modifies this`outputs
      ensures Stepped(State(), r) ==
        match Load(mem, addr, mode)
        case Err(e) => Stepped(old(State()), Err(e))
        case Ok(v) => Stepped(old(State()).(outputs := old(outputs) + [v]), Ok(()))
    {
      var v :- Ld(addr, mode);
      outputs := outputs + [v];
      r := Ok(());
    }

    /** One iteration of the loop in `run`. */
    method Step() returns (r: Result<(), Raise>)
      modifies this
      ensures Exec(old(State())) == Stepped(State(), r)
    {
      var word :- NextOp();
      var op, modes := DecodeOp(word);
      if op == 1 || op == 2 {
        r := Arithmetic(op, modes);
      } else if op == 3 {
        r := Input();
      } else if op == 4 {
        r := Output(modes);
      } else if op == 5 || op == 6 {
        r := Jump(op, modes);
      } else if op == 7 || op == 8 {
        r := Compare(op, modes);
      } else if op == 99 {
        halted := true;
        r := Ok(());
      } else {
        r := Err(UnsupportedOp(op));
      }
    }

    /** The ADD and MUL branches of `run`. */
    method Arithmetic(op: int, modes: seq<int>) returns (r: Result<(), Raise>)
      requires op == 1 || op == 2
      modifies this
      ensures Stepped(State(), r) == Perform(op, modes, old(State()))
    {
      var args :- FetchThree();
      var v1 :- Ld(args[0], ModeAt(modes, 0));
      var v2 :- Ld(args[1], ModeAt(modes, 1));
      r := St(args[2], if op == 1 then v1 + v2 else v1 * v2);
    }

    /** The three `_next_op` calls that start ADD, MUL, LT and EQ: each
        advances ip, and the first that fails raises. */
    method FetchThree() returns (r: Result<seq<int>, Raise>)
      modifies this`ip
      ensures match Operands(mem, old(ip), 3)
              case Err(j) => r == Err(IndexError) && ip == old(ip) + j
              case Ok(args) => r == Ok(args) && ip == old(ip) + 3
    {
      ThreeOperands(mem, ip);
      var a :- NextOp();
      var b :- NextOp();
      var c :- NextOp();
      r := Ok([a, b, c]);
    }

    /** The LT and EQ branches of `run`. */
    method Compare(op: int, modes: seq<int>) returns (r: Result<(), Raise>)
      requires op == 7 || op == 8
      modifies this
      ensures Stepped(State(), r) == Perform(op, modes, old(State()))
    {
      var args :- FetchThree();
      var v1 :- Ld(args[0], ModeAt(modes, 0));
      var v2 :- Ld(args[1], ModeAt(modes, 1));
      if (op == 7 && v1 < v2) || (op == 8 && v1 == v2) {
        r := St(args[2], 1);
      } else {
        r := St(args[2], 0);
      }
    }

    /** The READ branch of `run`. */
    method Input() returns (r: Result<(), Raise>)
      modifies this
      ensures Stepped(State(), r) == Perform(3, [], old(State()))
    {
      OneOperand(mem, ip);
      var out :- NextOp();
      r := Read(out);
    }

    /** The WRITE branch of `run`. */
    method Output(modes: seq<int>) returns (r: Result<(), Raise>)
      modifies this
      ensures Stepped(State(), r) == Perform(4, modes, old(State()))
    {
      OneOperand(mem, ip);
      var addr :- NextOp();
      r := Print(addr, ModeAt(modes, 0));
    }

    /** The JNZ and JZ branches of `run`. */
    method Jump(op: int, modes: seq<int>) returns (r: Result<(), Raise>)
      requires op == 5 || op == 6
      modifies this
      ensures Stepped(State(), r) == Perform(op, modes, old(State()))
    {
      TwoOperands(mem, ip);
      var p1 :- NextOp();
      var p2 :- NextOp();
      var v1 :- Ld(p1, ModeAt(modes, 0));
      var v2 :- Ld(p2, ModeAt(modes, 1));
      if (op == 5 && v1 != 0) || (op == 6 && v1 == 0) {
        ip := v2;
      }
      r := Ok(());
    }

    /** `run(inputs)`: replaces the inputs, executes instructions until the halt
        flag is set and returns `memory[0]`; an exception ends the call early.
        At most `fuel` instructions are executed. */
    method Run(inputs: seq<int>, fuel: nat) returns (r: RunResult)
      modifies this
      ensures Ran(State(), r) == RunWith(old(State()), inputs, fuel)
    {
      this.inputs := inputs;
      var budget := fuel;
      while !halted
        invariant Execute(State(), budget) == RunWith(old(State()), inputs, fuel)
        decreases budget
      {
        if budget == 0 {
          return OutOfFuel;
        }
        var s := Step();
        if s.Err? {
          return if s.error == WaitingOnInput then AwaitingInput else Error(s.error);
        }
        budget := budget - 1;
      }
      var v := Ld(0, 0);
      r := if v.Ok? then Halted(v.value) else Error(v.error);
    }

    /** `pop_outputs`: hands over the queued outputs and empties the queue. */
    method PopOutputs() returns (outs: seq<int>)
      modifies this`outputs
      ensures outs == old(outputs) && outputs == []
    {
      outs := outputs;
      outputs := [];
    }
  }
}
