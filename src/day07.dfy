/** The amplifiers of aoc/d07.py: an open chain of interpreters, and a
    round-robin scheduler that drives several suspended interpreters in a loop,
    feeding each one the outputs the previous one produced. The program text is
    parsed afresh for every interpreter, so each starts from its own copy of the
    same memory; here the program is given as its integers. */
module Day07 {
  import opened Wrappers
  import opened IntCode

  /** An exception that escapes the amplifier functions. */
  datatype Crash =
    | ZeroDivision        // `cr % nb_runners` with no phase settings
    | NotStarted          // `r.is_halted()` on a runner slot still None
    | NoOutput            // `[0]` of an empty output list
    | Raised(e: Raise)    // an interpreter exception that is not caught

  /** What an amplifier function returns, or raises; Exhausted stands for a run
      that has not ended within the given instruction or turn budget. */
  datatype Verdict = Thrust(v: int) | Crashed(c: Crash) | Exhausted

  /** `outputs[0] if outputs else 0`. */
  function FirstOrZero(outputs: seq<int>): int
  {
    if outputs == [] then 0 else outputs[0]
  }

  // ---------------------------------------------------------------------------
  // The open chain: get_thruster_output

  /** The outputs of the last amplifier once the amplifiers with `phases` have
      run in turn, the first of them receiving `carried`'s first output or 0. */
  function Chain(program: seq<int>, phases: seq<int>, carried: seq<int>, fuel: nat): (r: Result<seq<int>, Verdict>)
    ensures r.Err? ==> !r.error.Thrust?
    decreases |phases|
  {
    if phases == [] then Ok(carried)
    else
      var ran := RunWith(Boot(program), [phases[0], FirstOrZero(carried)], fuel);
      match ran.result
      case Halted(_) => Chain(program, phases[1..], ran.m.outputs, fuel)
      case AwaitingInput => Err(Crashed(Raised(WaitingOnInput)))
      case Error(e) => Err(Crashed(Raised(e)))
      case OutOfFuel => Err(Exhausted)
  }

  /** `get_thruster_output`: the last amplifier's first output. */
  function ThrusterOutput(program: seq<int>, phases: seq<int>, fuel: nat): Verdict
  {
    match Chain(program, phases, [], fuel)
    case Err(v) => v
    case Ok(outs) => if outs == [] then Crashed(NoOutput) else Thrust(outs[0])
  }

  /** The chain is a fold: running amplifiers `phases + [p]` is running
      `phases`, then one fresh interpreter with phase `p` and the first output
      of the amplifier before it (0 for the first). */
  lemma {:induction false} ChainSnoc(program: seq<int>, phases: seq<int>, p: int, carried: seq<int>, fuel: nat)
    ensures Chain(program, phases + [p], carried, fuel) ==
      match Chain(program, phases, carried, fuel)
      case Err(v) => Err(v)
      case Ok(outs) => Chain(program, [p], outs, fuel)
    decreases |phases|
  {
    if phases == [] {
      assert phases + [p] == [p];
    } else {
      assert (phases + [p])[1..] == phases[1..] + [p];
      var ran := RunWith(Boot(program), [phases[0], FirstOrZero(carried)], fuel);
      if ran.result.Halted? {
        ChainSnoc(program, phases[1..], p, ran.m.outputs, fuel);
      }
    }
  }

  /** So the answer is the first output of the last amplifier, run on a fresh
      copy of the program with inputs (its phase, the first output of the chain
      before it or 0), once that chain has completed. */
  lemma LastAmplifierDecides(program: seq<int>, phases: seq<int>, p: int, fuel: nat, v: int)
    ensures ThrusterOutput(program, phases + [p], fuel) == Thrust(v) <==>
      exists outs :: Chain(program, phases, [], fuel) == Ok(outs) && LastRun(program, p, outs, fuel, v)
  {
    ChainSnoc(program, phases, p, [], fuel);
    match Chain(program, phases, [], fuel)
    case Err(_) =>
    case Ok(outs) =>
      var ran := RunWith(Boot(program), [p, FirstOrZero(outs)], fuel);
      if ran.result.Halted? {
        assert Chain(program, [p], outs, fuel) == Chain(program, [], ran.m.outputs, fuel);
      }
      if LastRun(program, p, outs, fuel, v) {
        assert Chain(program, phases, [], fuel) == Ok(outs) && LastRun(program, p, outs, fuel, v);
      }
  }

  /** The last amplifier, given the outputs `outs` of the one before it, halts
      and outputs `v` first. */
  predicate LastRun(program: seq<int>, p: int, outs: seq<int>, fuel: nat, v: int)
  {
    var ran := RunWith(Boot(program), [p, FirstOrZero(outs)], fuel);
    ran.result.Halted? && ran.m.outputs != [] && ran.m.outputs[0] == v
  }

  /** `get_thruster_output`, with its loop over the phase settings. */
  method GetThrusterOutput(program: seq<int>, phases: seq<int>, fuel: nat) returns (r: Verdict)
    ensures r == ThrusterOutput(program, phases, fuel)
  {
    var outputs: seq<int> := [];
    for i := 0 to |phases|
      invariant Chain(program, phases[i..], outputs, fuel) == Chain(program, phases, [], fuel)
    {
      assert phases[i..][1..] == phases[i + 1..];
      var runner := new IntCodeRunner(program, phases[i]);
      var res := runner.Run([phases[i], if outputs != [] then outputs[0] else 0], fuel);
      match res {
        case Halted(_) =>
        case AwaitingInput => return Crashed(Raised(WaitingOnInput));
        case Error(e) => return Crashed(Raised(e));
        case OutOfFuel => return Exhausted;
      }
      outputs := runner.PopOutputs();
    }
    assert phases[|phases|..] == [];
    if outputs == [] {
      return Crashed(NoOutput);
    }
    return Thrust(outputs[0]);
  }

  // ---------------------------------------------------------------------------
  // The feedback loop: get_thruster_output_with_feedback

  /** The scheduler's variables between turns: the runner slots (None until
      `_get_runner` first creates that runner), the cursor `cr`, and `output`,
      the outputs drained from the previous runner. */
  datatype Sched = Sched(slots: seq<Option<Machine>>, cr: nat, output: seq<int>)

  /** `all(r.is_halted() for r in runners)`: scans in order and stops at the
      first runner that has not halted; a slot still None raises AttributeError
      (None here) if the scan reaches it. */
  function AllHalted(slots: seq<Option<Machine>>): Option<bool>
  {
    AllHaltedFrom(slots, 0)
  }

  /** The scan from slot `i` on. */
  function AllHaltedFrom(slots: seq<Option<Machine>>, i: nat): Option<bool>
    requires i <= |slots|
    decreases |slots| - i
  {
    if i == |slots| then Some(true)
    else if slots[i].None? then None
    else if !slots[i].value.halted then Some(false)
    else AllHaltedFrom(slots, i + 1)
  }

  /** The inputs of turn `cr`: the phase setting and the carried first output
      (or 0) during the first round, the carried outputs afterwards. */
  function TurnInputs(phases: seq<int>, cr: nat, output: seq<int>): seq<int>
  {
    if cr < |phases| then [phases[cr], FirstOrZero(output)] else output
  }

  /** One pass of the `while True` loop: either the scheduler's next state, or
      what the function returns or raises. An exception of `run` is caught and
      the loop goes on; only a normal return can end it. */
  function Turn(program: seq<int>, phases: seq<int>, s: Sched, fuel: nat): Result<Sched, Verdict>
    requires |s.slots| == |phases| > 0
  {
    var n := s.cr % |phases|;
    var m := if s.slots[n].Some? then s.slots[n].value else Boot(program);
    Settle(s, n, RunWith(m, TurnInputs(phases, s.cr, s.output), fuel))
  }

  /** The rest of a turn once runner `n` has run: store it back, then end the
      loop or move the cursor on. */
  function Settle(s: Sched, n: nat, ran: Ran): Result<Sched, Verdict>
    requires n < |s.slots|
  {
    var slots := s.slots[n := Some(ran.m)];
    var next := Ok(Sched(s.slots[n := Some(ran.m.(outputs := []))], s.cr + 1, ran.m.outputs));
    match ran.result
    case OutOfFuel => Err(Exhausted)
    case Halted(_) =>
      (match AllHalted(slots)
       case None => Err(Crashed(NotStarted))
       case Some(true) => Err(if ran.m.outputs == [] then Crashed(NoOutput) else Thrust(ran.m.outputs[0]))
       case Some(false) => next)
    case _ => next
  }

  /** The loop, for at most `turns` turns. */
  function Feedback(program: seq<int>, phases: seq<int>, s: Sched, fuel: nat, turns: nat): Verdict
    requires |s.slots| == |phases| > 0
    decreases turns
  {
    if turns == 0 then Exhausted
    else
      match Turn(program, phases, s, fuel)
      case Err(v) => v
      case Ok(s') => Feedback(program, phases, s', fuel, turns - 1)
  }

  function Initial(phases: seq<int>): Sched
  {
    Sched(seq(|phases|, _ => None), 0, [])
  }

  /** `get_thruster_output_with_feedback`, for at most `turns` turns. */
  function ThrusterOutputWithFeedback(program: seq<int>, phases: seq<int>, fuel: nat, turns: nat): Verdict
  {
    if |phases| == 0 then Crashed(ZeroDivision)
    else Feedback(program, phases, Initial(phases), fuel, turns)
  }

  /** Which runners exist: exactly those of the turns taken so far. */
  predicate Started(phases: seq<int>, s: Sched)
  {
    |s.slots| == |phases| && forall i :: 0 <= i < |s.slots| ==> (s.slots[i].Some? <==> i < s.cr)
  }

  /** One turn uses the instance `cr mod N`, created on the first round and
      reused afterwards with its own memory and ip; it receives the phase and
      the carried first output (or 0) during the first round and exactly the
      carried outputs afterwards; its outputs are drained into the carried
      output, the cursor advances by one, and no other slot changes. */
  lemma TurnUpdates(program: seq<int>, phases: seq<int>, s: Sched, fuel: nat)
    requires |phases| > 0 && Started(phases, s)
    ensures var n := s.cr % |phases|;
            var m := if s.cr < |phases| then Boot(program) else s.slots[n].value;
            var ran := RunWith(m, TurnInputs(phases, s.cr, s.output), fuel);
            && (s.cr < |phases| ==> n == s.cr && s.slots[n].None?)
            && (s.cr >= |phases| ==> s.slots[n].Some?)
            && (Turn(program, phases, s, fuel).Ok? ==>
                  Turn(program, phases, s, fuel).value ==
                    Sched(s.slots[n := Some(ran.m.(outputs := []))], s.cr + 1, ran.m.outputs))
  {
  }

  /** Every turn keeps Started: the first N turns each create one runner and
      later turns create none. */
  lemma TurnKeepsStarted(program: seq<int>, phases: seq<int>, s: Sched, fuel: nat)
    requires |phases| > 0 && Started(phases, s)
    ensures Turn(program, phases, s, fuel).Ok? ==> Started(phases, Turn(program, phases, s, fuel).value)
  {
    var n := s.cr % |phases|;
    var m := if s.slots[n].Some? then s.slots[n].value else Boot(program);
    var ran := RunWith(m, TurnInputs(phases, s.cr, s.output), fuel);
    assert Turn(program, phases, s, fuel) == Settle(s, n, ran);
    if Settle(s, n, ran).Ok? {
      var slots := s.slots[n := Some(ran.m.(outputs := []))];
      assert Settle(s, n, ran).value == Sched(slots, s.cr + 1, ran.m.outputs);
      if s.cr < |phases| {
        assert n == s.cr;
      }
      forall i | 0 <= i < |slots|
        ensures slots[i].Some? <==> i < s.cr + 1
      {
        if i != n {
          assert slots[i] == s.slots[i];
        }
      }
    }
  }

  /** Once every runner exists, the halting scan is never a crash. */
  lemma {:induction false} AllHaltedDefined(slots: seq<Option<Machine>>, i: nat)
    requires i <= |slots|
    requires forall k :: i <= k < |slots| ==> slots[k].Some?
    ensures AllHaltedFrom(slots, i).Some?
    ensures AllHaltedFrom(slots, i) == Some(true) <==> forall k :: i <= k < |slots| ==> slots[k].value.halted
    decreases |slots| - i
  {
    if i < |slots| {
      AllHaltedDefined(slots, i + 1);
    }
  }

  /** The scheduler starts with no runner, which is Started. */
  lemma InitialStarted(phases: seq<int>)
    ensures Started(phases, Initial(phases))
  {
  }

  /** After the first round every runner exists, so the halting scan of a turn
      can no longer raise AttributeError. */
  lemma NoCrashAfterFirstRound(program: seq<int>, phases: seq<int>, s: Sched, fuel: nat)
    requires |phases| > 0 && Started(phases, s) && s.cr >= |phases|
    ensures Turn(program, phases, s, fuel) != Err(Crashed(NotStarted))
  {
    var n := s.cr % |phases|;
    var m := s.slots[n].value;
    var ran := RunWith(m, TurnInputs(phases, s.cr, s.output), fuel);
    var slots := s.slots[n := Some(ran.m)];
    assert forall k :: 0 <= k < |slots| ==> slots[k].Some?;
    AllHaltedDefined(slots, 0);
  }

  // The program [4, 0, 99] writes its first word and halts.
  lemma WriteThenHaltStep(inputs: seq<int>)
    ensures Exec(Machine([4, 0, 99], 0, false, inputs, [])) == Stepped(Machine([4, 0, 99], 2, false, inputs, [4]), Ok(()))
  {
    var m := Machine([4, 0, 99], 0, false, inputs, []);
    assert Fetch(m.mem, 0) == Ok(4);
    assert Decode(4) == (4, []) by { assert Digits(0) == []; }
    OneOperand(m.mem, 1);
  }

  /** During the first round the scan can reach a slot that is still None: with
      a program that halts on its first run, `all(...)` calls `is_halted` on
      None and the function raises AttributeError. */
  lemma UnstartedSlotCrash(program: seq<int>, phases: seq<int>)
    requires program == [4, 0, 99] && phases == [5, 6]
    ensures ThrusterOutputWithFeedback(program, phases, 3, 1) == Crashed(NotStarted)
  {
    WriteThenHaltStep([5, 0]);
    HaltStep(Machine([4, 0, 99], 2, false, [5, 0], [4]));
    var s := Initial(phases);
    var m0 := Machine([4, 0, 99], 0, false, [5, 0], []);
    var m1 := Machine([4, 0, 99], 2, false, [5, 0], [4]);
    var m2 := m1.(ip := 3, halted := true);
    assert TurnInputs(phases, 0, []) == [5, 0];
    assert Boot(program).(inputs := [5, 0]) == m0;
    assert Execute(m0, 3) == Continue(m0, 2) == Execute(m1, 2);
    assert Execute(m1, 2) == Continue(m1, 1) == Execute(m2, 1);
    assert Execute(m2, 1) == Ran(m2, Halted(4));
    var ran := RunWith(Boot(program), TurnInputs(phases, 0, []), 3);
    assert ran == Ran(m2, Halted(4));
    var slots := s.slots[0 := Some(ran.m)];
    assert slots[1] == None;
    assert AllHaltedFrom(slots, 1) == None;
    assert AllHalted(slots) == None;
  }

  /** The scheduler answers only after a normal return of the current runner
      with every runner halted, and the answer is that runner's first output. */
  lemma ThrustOnlyWhenAllHalted(program: seq<int>, phases: seq<int>, s: Sched, fuel: nat)
    requires |s.slots| == |phases| > 0
    ensures var n := s.cr % |phases|;
            var m := if s.slots[n].Some? then s.slots[n].value else Boot(program);
            var ran := RunWith(m, TurnInputs(phases, s.cr, s.output), fuel);
            Turn(program, phases, s, fuel).Err? && Turn(program, phases, s, fuel).error.Thrust? ==>
              && ran.result.Halted?
              && AllHalted(s.slots[n := Some(ran.m)]) == Some(true)
              && Turn(program, phases, s, fuel).error.v == ran.m.outputs[0]
  {
  }

  /** A caught exception never ends the loop: after a suspension or any other
      error the scheduler moves on to the next turn. */
  lemma ExceptionsAreCaught(program: seq<int>, phases: seq<int>, s: Sched, fuel: nat)
    requires |s.slots| == |phases| > 0
    ensures var n := s.cr % |phases|;
            var m := if s.slots[n].Some? then s.slots[n].value else Boot(program);
            var ran := RunWith(m, TurnInputs(phases, s.cr, s.output), fuel);
            ran.result.AwaitingInput? || ran.result.Error? ==> Turn(program, phases, s, fuel).Ok?
  {
  }

  /** The turns after which the loop goes on. */
  lemma TurnContinues(program: seq<int>, phases: seq<int>, s: Sched, fuel: nat, ran: Ran)
    requires |s.slots| == |phases| > 0
    requires var n := s.cr % |phases|;
             var m := if s.slots[n].Some? then s.slots[n].value else Boot(program);
             ran == RunWith(m, TurnInputs(phases, s.cr, s.output), fuel)
    requires ran.result != OutOfFuel
    requires ran.result.Halted? ==> AllHalted(s.slots[s.cr % |phases| := Some(ran.m)]) == Some(false)
    ensures Turn(program, phases, s, fuel) ==
      Ok(Sched(s.slots[s.cr % |phases| := Some(ran.m.(outputs := []))], s.cr + 1, ran.m.outputs))
  {
  }

  /** One turn of the loop, as a step of Feedback: if the loop from `s` ends
      with `goal`, then either this turn ends it with `goal` or the loop from
      the next state does. */
  lemma FeedbackStep(program: seq<int>, phases: seq<int>, s: Sched, fuel: nat, turns: nat, done: Option<Verdict>, s': Sched, goal: Verdict)
    requires |s.slots| == |phases| > 0 && turns > 0
    requires Feedback(program, phases, s, fuel, turns) == goal
    requires Turn(program, phases, s, fuel) == if done.Some? then Err(done.value) else Ok(s')
    ensures done.Some? ==> done.value == goal
    ensures done.None? ==> |s'.slots| == |phases| && Feedback(program, phases, s', fuel, turns - 1) == goal
  {
  }

  lemma FeedbackUnfold(program: seq<int>, phases: seq<int>, s: Sched, fuel: nat, turns: nat)
    requires |s.slots| == |phases| > 0 && turns > 0
    requires Turn(program, phases, s, fuel).Ok?
    ensures Feedback(program, phases, s, fuel, turns) == Feedback(program, phases, Turn(program, phases, s, fuel).value, fuel, turns - 1)
  {
  }

  /** Runner slot `i` agrees with slot `i` of a Sched: empty in both, or a
      runner whose state is the slot's machine. */
  predicate SlotMirrors(runners: array<IntCodeRunner?>, slots: seq<Option<Machine>>, i: nat)
    requires i < runners.Length == |slots|
    reads runners, set j | 0 <= j < runners.Length && runners[j] != null :: runners[j]
  {
    (runners[i] == null <==> slots[i].None?) && (runners[i] != null ==> runners[i].State() == slots[i].value)
  }

  /** The runner objects of the loop agree with the slots of a Sched, slot by
      slot from `i` on. */
  predicate MirrorsFrom(runners: array<IntCodeRunner?>, slots: seq<Option<Machine>>, i: nat)
    requires i <= runners.Length == |slots|
    reads runners, set j | 0 <= j < runners.Length && runners[j] != null :: runners[j]
    decreases |slots| - i
  {
    i == |slots| || (SlotMirrors(runners, slots, i) && MirrorsFrom(runners, slots, i + 1))
  }

  predicate Mirrors(runners: array<IntCodeRunner?>, slots: seq<Option<Machine>>)
    reads runners, set j | 0 <= j < runners.Length && runners[j] != null :: runners[j]
  {
    runners.Length == |slots| && MirrorsFrom(runners, slots, 0)
  }

  lemma {:induction false} MirrorsElim(runners: array<IntCodeRunner?>, slots: seq<Option<Machine>>, i: nat)
    requires i <= runners.Length == |slots| && MirrorsFrom(runners, slots, i)
    ensures forall k :: i <= k < |slots| ==> SlotMirrors(runners, slots, k)
    decreases |slots| - i
  {
    if i < |slots| {
      MirrorsElim(runners, slots, i + 1);
    }
  }

  lemma {:induction false} MirrorsIntro(runners: array<IntCodeRunner?>, slots: seq<Option<Machine>>, i: nat)
    requires i <= runners.Length == |slots|
    requires forall k :: i <= k < |slots| ==> SlotMirrors(runners, slots, k)
    ensures MirrorsFrom(runners, slots, i)
    decreases |slots| - i
  {
    if i < |slots| {
      MirrorsIntro(runners, slots, i + 1);
    }
  }

  /** Distinct runner objects in distinct slots. */
  predicate Distinct(runners: array<IntCodeRunner?>)
    reads runners
  {
    forall i, j :: 0 <= i < j < runners.Length && runners[i] != null ==> runners[i] != runners[j]
  }

  /** `_get_runner(n)` followed by `runner.run(inputs)`. */
  method RunSlot(runners: array<IntCodeRunner?>, n: nat, program: seq<int>, inputs: seq<int>, fuel: nat, ghost slots: seq<Option<Machine>>)
    returns (runner: IntCodeRunner, res: RunResult)
    requires n < runners.Length && Mirrors(runners, slots) && Distinct(runners)
    modifies runners, runners[n]
    ensures runners[n] == runner && (old(runners[n]) == null ==> fresh(runner)) && (old(runners[n]) != null ==> runner == old(runners[n]))
    ensures forall i :: 0 <= i < runners.Length && i != n ==> runners[i] == old(runners[i])
    ensures Ran(runner.State(), res) == RunWith(if slots[n].Some? then slots[n].value else Boot(program), inputs, fuel)
    ensures Mirrors(runners, slots[n := Some(runner.State())]) && Distinct(runners)
  {
    MirrorsElim(runners, slots, 0);
    assert SlotMirrors(runners, slots, n);
    var existing := runners[n];
    if existing == null {
      runner := new IntCodeRunner(program, n);
      runners[n] := runner;
    } else {
      runner := existing;
    }
    res := runner.Run(inputs, fuel);
    ghost var slots' := slots[n := Some(runner.State())];
    forall k | 0 <= k < |slots'|
      ensures SlotMirrors(runners, slots', k)
    {
      if k != n {
        assert old(SlotMirrors(runners, slots, k));
        if runners[k] != null {
          assert k < n ==> old(runners[k]) != old(runners[n]);
          assert k > n && old(runners[n]) != null ==> old(runners[n]) != old(runners[k]);
          assert runners[k] != runner;
        }
      }
    }
    MirrorsIntro(runners, slots', 0);
  }

  /** `runner.pop_output()` on the runner in slot `n`. */
  method DrainSlot(runners: array<IntCodeRunner?>, n: nat, ghost slots: seq<Option<Machine>>) returns (outs: seq<int>)
    requires n < runners.Length && runners[n] != null && Mirrors(runners, slots) && Distinct(runners) && slots[n].Some?
    modifies runners[n]
    ensures outs == slots[n].value.outputs
    ensures Mirrors(runners, slots[n := Some(slots[n].value.(outputs := []))])
  {
    MirrorsElim(runners, slots, 0);
    assert SlotMirrors(runners, slots, n);
    var runner := runners[n];
    outs := runner.PopOutputs();
    ghost var slots' := slots[n := Some(slots[n].value.(outputs := []))];
    forall k | 0 <= k < |slots'|
      ensures SlotMirrors(runners, slots', k)
    {
      if k != n {
        assert old(SlotMirrors(runners, slots, k));
        if runners[k] != null {
          assert k < n ==> runners[k] != runners[n];
          assert k > n ==> runners[n] != runners[k];
        }
      }
    }
    MirrorsIntro(runners, slots', 0);
  }

  /** One pass of the `while True` loop on the runner objects: `_get_runner`,
      `run`, the halting check and the draining of the outputs. */
  method TakeTurn(program: seq<int>, phases: seq<int>, runners: array<IntCodeRunner?>, cr: nat, output: seq<int>, fuel: nat,
                  ghost slots: seq<Option<Machine>>)
    returns (done: Option<Verdict>, output': seq<int>, ghost slots': seq<Option<Machine>>)
    requires |phases| > 0 && Distinct(runners) && Mirrors(runners, slots) && |slots| == |phases|
    modifies runners, set i | 0 <= i < runners.Length && runners[i] != null :: runners[i]
    ensures forall i :: 0 <= i < runners.Length && runners[i] != null ==> runners[i] == old(runners[i]) || fresh(runners[i])
    ensures Distinct(runners) && Mirrors(runners, slots')
    ensures Turn(program, phases, Sched(slots, cr, output), fuel) ==
      if done.Some? then Err(done.value) else Ok(Sched(slots', cr + 1, output'))
  {
    var n := cr % |phases|;
    var inputs := if cr < |phases| then [phases[cr], if output != [] then output[0] else 0] else output;
    var runner, res := RunSlot(runners, n, program, inputs, fuel, slots);
    ghost var ran := Ran(runner.State(), res);
    assert Turn(program, phases, Sched(slots, cr, output), fuel) == Settle(Sched(slots, cr, output), n, ran);
    done, output', slots' := SettleSlot(runners, n, res, output, Sched(slots, cr, output), ran);
  }

  /** The halting check and the draining of the outputs after runner `n` has
      run, leaving the scheduler state `s` with `ran` as that runner's state. */
  method SettleSlot(runners: array<IntCodeRunner?>, n: nat, res: RunResult, output: seq<int>, ghost s: Sched, ghost ran: Ran)
    returns (done: Option<Verdict>, output': seq<int>, ghost slots': seq<Option<Machine>>)
    requires n < runners.Length == |s.slots| && runners[n] != null && res == ran.result && output == s.output
    requires Distinct(runners) && Mirrors(runners, s.slots[n := Some(ran.m)])
    modifies runners[n]
    ensures Mirrors(runners, slots')
    ensures Settle(s, n, ran) == if done.Some? then Err(done.value) else Ok(Sched(slots', s.cr + 1, output'))
  {
    ghost var ranSlots := s.slots[n := Some(ran.m)];
    output', slots' := output, ranSlots;
    if res == OutOfFuel {
      return Some(Exhausted), output', slots';
    }
    if res.Halted? {
      var all := AllRunnersHalted(runners, ranSlots);
      if all.None? {
        return Some(Crashed(NotStarted)), output', slots';
      }
      if all.value {
        var outs := DrainSlot(runners, n, ranSlots);
        slots' := ranSlots[n := Some(ran.m.(outputs := []))];
        if outs == [] {
          return Some(Crashed(NoOutput)), output', slots';
        }
        return Some(Thrust(outs[0])), output', slots';
      }
    }
    output' := DrainSlot(runners, n, ranSlots);
    assert ranSlots[n := Some(ranSlots[n].value.(outputs := []))] == s.slots[n := Some(ran.m.(outputs := []))];
    slots' := s.slots[n := Some(ran.m.(outputs := []))];
    done := None;
  }

  /** `get_thruster_output_with_feedback`, for at most `turns` turns, each run
      executing at most `fuel` instructions. */
  method GetThrusterOutputWithFeedback(program: seq<int>, phases: seq<int>, fuel: nat, turns: nat) returns (r: Verdict)
    ensures r == ThrusterOutputWithFeedback(program, phases, fuel, turns)
  {
    var nbRunners := |phases|;
    if nbRunners == 0 {
      return Crashed(ZeroDivision);
    }
    var runners := NoRunners(nbRunners);
    r := RunTurns(program, phases, runners, fuel, turns, Initial(phases).slots, 0, []);
  }

  /** The `while True` loop of `get_thruster_output_with_feedback` from the
      scheduler state (`slots`, `cr`, `output`), for at most `turns` turns. */
  method RunTurns(program: seq<int>, phases: seq<int>, runners: array<IntCodeRunner?>, fuel: nat, turns: nat,
                  ghost slots0: seq<Option<Machine>>, cr0: nat, output0: seq<int>)
    returns (r: Verdict)
    requires |phases| > 0 && |slots0| == |phases| && Distinct(runners) && Mirrors(runners, slots0)
    modifies runners, set i | 0 <= i < runners.Length && runners[i] != null :: runners[i]
    ensures r == Feedback(program, phases, Sched(slots0, cr0, output0), fuel, turns)
  {
    ghost var objects := set i | 0 <= i < runners.Length && runners[i] != null :: runners[i];
    ghost var r0 := Feedback(program, phases, Sched(slots0, cr0, output0), fuel, turns);
    var cr, output, budget := cr0, output0, turns;
    ghost var slots := slots0;
    while true
      invariant forall i :: 0 <= i < runners.Length && runners[i] != null ==> runners[i] in objects || fresh(runners[i])
      invariant Distinct(runners) && Mirrors(runners, slots) && |slots| == |phases|
      invariant Feedback(program, phases, Sched(slots, cr, output), fuel, budget) == r0
      decreases budget
    {
      if budget == 0 {
        return Exhausted;
      }
      ghost var before := Sched(slots, cr, output);
      var done;
      done, output, slots := TakeTurn(program, phases, runners, cr, output, fuel, slots);
      FeedbackStep(program, phases, before, fuel, budget, done, Sched(slots, cr + 1, output), r0);
      if done.Some? {
        return done.value;
      }
      cr := cr + 1;
      budget := budget - 1;
    }
  }

  /** `runners = [None] * nb_runners`. */
  method NoRunners(n: nat) returns (runners: array<IntCodeRunner?>)
    ensures fresh(runners) && runners.Length == n
    ensures forall i :: 0 <= i < n ==> runners[i] == null
    ensures Distinct(runners) && Mirrors(runners, seq(n, _ => None))
  {
    runners := new IntCodeRunner?[n](_ => null);
    ghost var slots: seq<Option<Machine>> := seq(n, _ => None);
    forall k | 0 <= k < n
      ensures SlotMirrors(runners, slots, k)
    {
    }
    MirrorsIntro(runners, slots, 0);
  }

  /** The scan of `all(r.is_halted() for r in runners)`. */
  method AllRunnersHalted(runners: array<IntCodeRunner?>, ghost slots: seq<Option<Machine>>) returns (r: Option<bool>)
    requires Mirrors(runners, slots)
    ensures r == AllHalted(slots)
  {
    MirrorsElim(runners, slots, 0);
    var i := 0;
    while i < runners.Length
      invariant 0 <= i <= runners.Length
      invariant AllHaltedFrom(slots, i) == AllHalted(slots)
    {
      assert SlotMirrors(runners, slots, i);
      if runners[i] == null {
        assert slots[i].None?;
        return None;
      }
      if !runners[i].halted {
        assert !slots[i].value.halted;
        return Some(false);
      }
      i := i + 1;
    }
    r := Some(true);
  }
}
