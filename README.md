# Advent of Code 2019 solutions, modelled in Dafny

This project models the core of a Python repository of Advent of Code 2019
solutions and proves properties of the model.

The centre of the repository is the IntCode interpreter of `aoc/intcode.py`
(class `IntCodeRunner`):
- a list of integers as memory, an instruction address (`ip`), a halt flag, an input
  iterator and an output list;
- opcodes 1 to 8 and 99, with position (0) and immediate (1) operand modes;
- a READ with no input left rewinds the instruction address (`ip`) to the READ and
  raises `WaitingOnInput`, so a caller can resume the program with more input.

The model (`src/intcode.dfy`) has two layers:
- a pure specification of one instruction (`IntCode.Exec`) and of a whole
  run (`IntCode.RunWith`);
- a class `IntCode.IntCodeRunner` whose methods update its fields in place and
  are proved equal to that specification.

Python list subscripts are modelled exactly: a negative index counts from the
end, and an out-of-range index gives `IndexError` as a value. The state an
exception leaves behind is modelled too, because the feedback loop of
`aoc/d07.py` catches every exception and runs the same instance again.

`d05.py` holds an earlier interpreter with the same decoding, loads and
stores. It is modelled as its own class over an array the caller owns
(`src/day05.dfy`), and it is proved to agree with the later one run for run.

The programs built on the interpreter are modelled on top of this
specification:
- the amplifier chain and the round-robin feedback scheduler of `aoc/d07.py`;
- the noun/verb patch-and-search of `aoc/d02.py`.

Every other solution in the core is modelled in the form its source has:
- a function where the source computes a value;
- a method with loop invariants where the source loops;
- a class whose methods change its fields where the source has objects
  updated in place (the `GameState` of day 13, the panels and robot of day 11,
  the moons of day 12, the robot and map of day 15, the grid of day 17).

Their callers receive the outputs an IntCode program would produce as
parameters, because those programs are puzzle inputs.

`d01.py`, `d04.py` and `d06.py` at the top of the repository hold the same
functions as `aoc/d01.py`, `aoc/d04.py` and `aoc/d06.py`; `get_orbits2` is
`get_number_of_transfers`. Each is modelled once, and the table cites the
`aoc/` copy.

Loops that have no termination argument take a `fuel: nat` bound, and a
separate outcome says that the bound ran out. These are:
- the interpreter's run loop;
- the feedback scheduler's turns;
- `get_period`;
- the recursion of `list_parents`.

## Model

| member | source | states |
|---|---|---|
| IntCode.DigitsRoundTrip | aoc/intcode.py:139-145 | the mode digits peeled off a word are canonical (no trailing zero) and read back as the number they came from |
| IntCode.FromDigitsRoundTrip | aoc/intcode.py:139-145 | a canonical digit list is exactly the digit list of the number it denotes |
| IntCode.DecodeEncode | aoc/intcode.py:134-145 | decoding the word built from an opcode below 100 and canonical modes gives back that opcode and those modes |
| IntCode.EncodeDecode | aoc/intcode.py:134-145 | every non-negative word is rebuilt from its decoded opcode (below 100) and modes |
| IntCode.DecodeOp | aoc/intcode.py:134-145 | the digit-peeling loop returns `word % 100` and the decimal digits of `word // 100`, least significant first |
| IntCode.Operands | aoc/intcode.py:129-132 | fetching n operands gives n values, or fails at the index of the first operand that is out of range |
| IntCode.OneOperand | aoc/intcode.py:129-132 | fetching one operand is one subscript of memory at ip |
| IntCode.TwoOperands | aoc/intcode.py:129-132 | two operands are fetched in order, and the first failing fetch decides the error |
| IntCode.ThreeOperands | aoc/intcode.py:129-132 | three operands are fetched in order, and the first failing fetch decides the error |
| IntCode.DecodeExamples | aoc/intcode.py:134-145 | 101102 decodes to opcode 2 with modes [1,1,0,1], and 1 to opcode 1 with no modes |
| IntCode.LoadModes | aoc/intcode.py:147-154 | mode 0 reads memory (IndexError out of range), mode 1 returns the operand itself, any other mode raises Unsupported mode |
| IntCode.ArithmeticWritesOnlyDestination | aoc/intcode.py:38-55 | ADD, MUL, LT and EQ change only memory[dst], whatever dst's mode; LT/EQ store exactly 1 or 0, and ip moves 4 past the opcode |
| IntCode.JumpTarget | aoc/intcode.py:66-85 | JNZ/JZ set ip to the second operand's value when the condition holds, else ip ends 3 past the opcode |
| IntCode.ReadWithoutInputSuspends | aoc/intcode.py:160-164 | a READ with no input left changes nothing (ip is rewound to the READ) and raises WaitingOnInput |
| IntCode.ReadConsumesInput | aoc/intcode.py:56-60 | a READ with input stores the first input at its operand's cell, drops that input and moves ip 2 on |
| IntCode.WriteAppendsOutput | aoc/intcode.py:61-65 | an OUTPUT appends the loaded value to the outputs and changes nothing else |
| IntCode.HaltSetsFlag | aoc/intcode.py:112-114 | opcode 99 sets the halt flag and changes nothing else |
| IntCode.UnknownOpcodeRaises | aoc/intcode.py:115-118 | any other opcode raises Unsupported op with that opcode |
| IntCode.DispatchKeeps | aoc/intcode.py:38-118 | every known opcode keeps the memory size and the halt flag once set, and only appends to the outputs |
| IntCode.Exec | aoc/intcode.py:31-120 | one instruction keeps the memory size and a set halt flag, adds at most one output after the old ones, consumes at most the first input, and one that raises changes no memory cell, output or halt flag |
| IntCode.PerformKeeps | aoc/intcode.py:36-118 | once the opcode is decoded, the rest of an instruction keeps the memory size and a set halt flag, and only appends to the outputs |
| IntCode.SuspendedAtRead | aoc/intcode.py:56-60 | only a READ on a machine with no input left raises WaitingOnInput, and its parameter word is in range |
| IntCode.SuspensionIsStable | aoc/intcode.py:160-164 | a suspension leaves the state exactly as it was, with no input left |
| IntCode.ResumeAfterSuspension | aoc/intcode.py:29 | a suspended machine given new inputs executes the same READ, storing the first new input |
| IntCode.HaltedRunExecutesNothing | aoc/intcode.py:31 | `run` on a halted machine executes nothing and returns memory[0] |
| IntCode.RunOutcomes | aoc/intcode.py:28-122 | a run keeps the memory size, only appends outputs, returns memory[0] exactly when the machine halted, and suspends only at a READ with no input |
| IntCode.AddFirstStep | aoc/intcode.py:38-46 | a concrete ADD writes 5 + 8 = 13 at its destination and moves ip 4 on |
| IntCode.HaltStep | aoc/intcode.py:112-114 | opcode 99 moves ip one past it and sets the halt flag |
| IntCode.ReadFirstStep | aoc/intcode.py:56-60 | a concrete READ suspends without input and stores 42 given [42] |
| IntCode.AddExample | aoc/intcode.py:28-122 | the concrete ADD program halts returning memory[0] = 1 with 13 written |
| IntCode.ReadExample | aoc/intcode.py:28-31 | the concrete READ program suspends at ip 0, then halts when run again with [42], storing it |
| IntCode.IntCodeRunner.constructor | aoc/intcode.py:19-26 | a new runner has the program as memory, ip 0, no halt, no inputs and no outputs |
| IntCode.IntCodeRunner.NextOp | aoc/intcode.py:129-132 | `_next_op` returns memory[ip] and advances ip, or raises IndexError with ip unchanged |
| IntCode.IntCodeRunner.Ld | aoc/intcode.py:147-154 | `_ld` returns the load of the specification for that mode |
| IntCode.IntCodeRunner.St | aoc/intcode.py:156-158 | `_st` writes memory[addr] only, or raises IndexError |
| IntCode.IntCodeRunner.Read | aoc/intcode.py:160-164 | `_read` rewinds ip by 2 and raises WaitingOnInput when no input is left, else stores and consumes the first input |
| IntCode.IntCodeRunner.Print | aoc/intcode.py:168-170 | `_print` appends the loaded value to the outputs, or raises what the load raises |
| IntCode.IntCodeRunner.Step | aoc/intcode.py:33-118 | one pass of the run loop does exactly what one instruction of the specification does |
| IntCode.IntCodeRunner.Arithmetic | aoc/intcode.py:38-55 | the ADD and MUL branches do what the specification does for them |
| IntCode.IntCodeRunner.Compare | aoc/intcode.py:86-111 | the LT and EQ branches do what the specification does for them |
| IntCode.IntCodeRunner.FetchThree | aoc/intcode.py:39-41 | the three `_next_op` calls return the three parameter words and move ip past them, or raise IndexError with ip past the words fetched so far |
| IntCode.IntCodeRunner.Input | aoc/intcode.py:56-60 | the READ branch does what the specification does for it |
| IntCode.IntCodeRunner.Output | aoc/intcode.py:61-65 | the OUTPUT branch does what the specification does for it |
| IntCode.IntCodeRunner.Jump | aoc/intcode.py:66-85 | the JNZ and JZ branches do what the specification does for them |
| IntCode.IntCodeRunner.Run | aoc/intcode.py:28-122 | `run(inputs)` replaces the inputs and runs to a halt, a suspension or an exception exactly as the specification does |
| IntCode.IntCodeRunner.PopOutputs | aoc/intcode.py:124-127 | `pop_outputs` returns the outputs in emission order and leaves none |
| Lists.Subscript | aoc/intcode.py:130 | a Python subscript is valid exactly for -n <= i < n, and a negative index counts from the end |
| Lists.Slice | aoc/d17.py:25 | a Python slice `xs[i:j]` is clamped to the list and holds the elements from i on |
| Lists.Count | aoc/d04.py:5 | `list.count` is positive exactly when the element occurs, and at most the length |
| Lists.IndexOf | aoc/d03.py:49 | `list.index` returns the first position holding the element |
| Day05.AgreesWithIntCode | d05.py:21-112 | the earlier interpreter computes the same memory, outputs and result as the later one for the same program and inputs |
| Day05.BreakOnlyAtHalt | d05.py:104-106 | the loop is left by `break` exactly at opcode 99, which moves ip one past it |
| Day05.IntCodeRunner05.constructor | d05.py:16-19 | the memory is the caller's array itself, the inputs are fixed here and ip starts at 0 |
| Day05.IntCodeRunner05.NextOp | d05.py:114-117 | `_next_op` returns memory[ip] and advances ip, or raises IndexError with ip unchanged |
| Day05.IntCodeRunner05.Ld | d05.py:132-139 | mode 0 reads memory, mode 1 is the literal, anything else raises |
| Day05.IntCodeRunner05.St | d05.py:141-143 | `_st` writes memory[addr] of the caller's array only, or raises IndexError |
| Day05.IntCodeRunner05.Input | d05.py:47-52 | the READ branch consumes the next fixed input and stores it |
| Day05.IntCodeRunner05.Output | d05.py:53-57 | the OUTPUT branch loads its operand and records it as an output |
| Day05.IntCodeRunner05.Arithmetic | d05.py:29-46 | the ADD and MUL branches write only memory[dst] |
| Day05.IntCodeRunner05.Compare | d05.py:78-103 | the LT and EQ branches write 1 or 0 at memory[dst] only |
| Day05.IntCodeRunner05.FetchThree | d05.py:29-31 | the three `_next_op` calls return the three parameter words and move ip past them, or raise IndexError with ip past the words fetched so far |
| Day05.IntCodeRunner05.Jump | d05.py:58-77 | the jumps set ip to the second operand on condition, else ip ends 3 past the opcode |
| Day05.IntCodeRunner05.Step | d05.py:22-110 | one pass of `while True` continues, breaks at 99, raises, or stops at a console read |
| Day05.IntCodeRunner05.Run | d05.py:21-112 | `run` ends only at opcode 99, returning memory[0], or on an exception such as Unsupported op |
| Day02.PatchedProgram | aoc/d02.py:8-12 | addresses 1 and 2 become noun and verb only when they are given, and no other cell changes |
| Day02.OutputIsAddressZero | aoc/d02.py:14-17 | the program output exists exactly when the run halts, and it is memory[0] after the run |
| Day02.SearchFinds | aoc/d02.py:20-26 | the search returns 100n+v (below 10000) for the first pair in order whose output matches, and reports not found exactly when no pair matches |
| Day02.OutputNeverNotFound | aoc/d02.py:7-17 | a single evaluation never reports the search's not-found error |
| Day02.GetProgramOutput | aoc/d02.py:9-17 | from the program's integers, the method patches a fresh copy, runs it and reads memory[0] as the specification does |
| Day02.GetInputForOutput | aoc/d02.py:20-26 | the nested loops return what the ordered search specifies |
| Day01.FuelReqRecur | aoc/d01.py:10-15 | the recursive fuel is never negative, is 0 exactly when `get_fuel_req` is not positive, and is at least `get_fuel_req` otherwise |
| Day01.FuelReq | aoc/d01.py:6-7 | `weight // 3 - 2` is the r with 3(r + 2) <= weight < 3(r + 3), Python's floor division included for negative weights |
| Day01.FuelShrinks | aoc/d01.py:11-15 | a positive fuel requirement is smaller than the weight, so the recursion terminates |
| Day01.FuelMonotone | aoc/d01.py:6-15 | a heavier module never needs less fuel, directly or recursively |
| Day01.FuelReqRecurBelowWeight | aoc/d01.py:10-15 | the recursive fuel never exceeds the weight |
| Day01.FuelReqExamples | tests/test_d01.py:7-17 | 12, 14, 1969 and 100756 need 2, 2, 654 and 33583 |
| Day01.FuelReqRecurExamples | tests/test_d01.py:19-29 | 12, 14, 1969 and 100756 need 2, 2, 966 and 50346 with fuel for fuel |
| Day03.Segment | aoc/d03.py:30-41 | one move lists `count` unit steps in its direction and ends `count` away; an unknown letter lists nothing |
| Day03.TraceLength | aoc/d03.py:27-41 | a wire of valid moves lists as many positions after the origin as the sum of the step counts |
| Day03.TraceIsPath | aoc/d03.py:25-41 | consecutive traced positions are one unit apart, and the last is where the moves end |
| Day03.UnknownLetterIgnored | aoc/d03.py:30-41 | a move whose letter is not U, D, L or R appends nothing |
| Day03.TraceWire | aoc/d03.py:21-43 | `_trace_wire` starts at (0,0) and appends each move's positions in order |
| Day03.WireTracer.constructor | aoc/d03.py:7-19 | the crossings are the points on every wire except the origin |
| Day03.WireTracer.Intersect | aoc/d03.py:14-17 | the intersection of the wires' position sets holds exactly the points on every wire |
| Day03.WireTracer.GetClosestDistance | aoc/d03.py:45-46 | the result is the least distance from the origin of a crossing, and absent exactly when there are none |
| Day03.WireTracer.GetFewestSteps | aoc/d03.py:48-49 | the result is the least summed first index of a crossing over the wires, and absent exactly when there are none |
| Day03.TraceExample | aoc/d03.py:25-41 | R2,U1 traces (0,0), (1,0), (2,0), (2,1) |
| Day04.Decimal | aoc/d04.py:19 | `list(str(i))` of a natural number is a non-empty list of decimal digits that reads back as the number, with no leading zero unless the number is 0 |
| Day04.Insert | aoc/d04.py:5 | inserting a digit adds exactly that digit |
| Day04.Sort | aoc/d04.py:5 | `sorted` is a permutation of its input |
| Day04.InsertKeepsOrder | aoc/d04.py:5 | insertion into a non-decreasing list keeps it non-decreasing |
| Day04.SortIsOrdered | aoc/d04.py:5 | `sorted` returns a non-decreasing list |
| Day04.SortKeepsOrdered | aoc/d04.py:5 | `sorted` of a non-decreasing list is the list itself |
| Day04.SortedIffOrdered | aoc/d04.py:5 | `digits == sorted(digits)` holds exactly when the digits are non-decreasing |
| Day04.CountAboveOne | aoc/d04.py:5 | a digit counts more than once exactly when it occurs at two positions |
| Day04.IsValidMeansAdjacentPair | aoc/d04.py:4-5 | `is_valid` holds exactly when the digits are non-decreasing and two adjacent digits are equal |
| Day04.OnePairMeansExactlyTwice | aoc/d04.py:8-9 | 2 is in the set of digit counts exactly when some digit occurs exactly twice |
| Day04.ContainsOnePair | aoc/d04.py:8-9 | `contains_one_pair` holds exactly when some digit occurs exactly twice |
| Day04.IsValidExample | tests/test_d04.py:7-15 | 111111 is valid |
| Day04.IsInvalidExample | tests/test_d04.py:7-15 | 223450 is not valid |
| Day04.ContainsOnePairExamples | tests/test_d04.py:17-25 | 112233 and 111122 contain a pair |
| Day04.ContainsNoPairExample | tests/test_d04.py:17-25 | 123444 contains no pair |
| Day04.PairCountBelowValidCount | aoc/d04.py:18-24 | the passwords with a pair are never more than the valid ones |
| Day04.CountPasswords | aoc/d04.py:16-24 | the loop counts the valid numbers of a..b as p1 and those that also contain a pair as p2, so p2 <= p1 |
| Day06.Put | aoc/d06.py:24 | `m[y] = x` maps y to x, and a new key goes last in the key order while an old key keeps its place |
| Day06.PutKeepsValid | aoc/d06.py:24 | an assignment keeps the dict's keys distinct and equal to its domain |
| Day06.Build | aoc/d06.py:21-24 | filling the dict from the lines fails only with a bad line, and names a line that was given |
| Day06.BuildKeepsValid | aoc/d06.py:21-24 | filling the dict from the lines keeps its keys distinct and equal to its domain |
| Day06.BuildJoined | aoc/d06.py:21-24 | lines that are `parent)child` pairs without a further ')' fill the dict with those pairs in order, and the lines after them continue from there |
| Day06.PutAllAppend | aoc/d06.py:21-24 | assigning two runs of pairs is assigning the first run and then the second |
| Day06.SplitJoin | aoc/d06.py:23 | a line unpacks into two names exactly when it has one ')', and then it is the two names joined by ')' |
| Day06.JoinSplit | aoc/d06.py:23 | two names without ')' joined by ')' split back into those names |
| Day06.BuildSnoc | aoc/d06.py:21-24 | the lines are applied in order, later lines override earlier ones, and a bad line raises |
| Day06.ListParents | aoc/d06.py:6-17 | an ancestor chain found within the fuel is no longer than the fuel |
| Day06.ListParentsIsChain | aoc/d06.py:6-17 | `list_parents` is empty exactly without a (truthy) parent, else starts at the parent, each entry is the parent of the one before, and it ends at an object without a parent |
| Day06.ListParentsFuel | aoc/d06.py:6-17 | more fuel does not change an ancestor chain once found |
| Day06.FirstCommonFinds | aoc/d06.py:35-42 | the transfer count is the index of YOU's nearest ancestor that SAN's chain holds plus its index there, and the search raises exactly when there is none |
| Day06.SumChainsAppend | aoc/d06.py:26 | the orbit count adds one key's chain length per key |
| Day06.SumChainsCovers | aoc/d06.py:26 | the sum over some keys exists exactly when every one of their chains fits in the fuel, and then it is at least each chain's length |
| Day06.OrbitsCover | aoc/d06.py:26 | over a dict's keys, the sum exists exactly when every chain of its domain fits in the fuel, and is at least each of them |
| Day06.Orbits | aoc/d06.py:20-26 | `get_orbits` raises what a bad line raises, and otherwise fails exactly when some object's chain exceeds the fuel, else returns the sum of the chain lengths of the dict's keys, which is at least each object's chain length |
| Day06.Transfers | aoc/d06.py:29-42 | `get_number_of_transfers` raises what a bad line raises; a count is the index of YOU's nearest ancestor that SAN's chain holds plus its index there; the final Exception is raised exactly when both chains are found and share no object; with both chains found the result is one of these two, and the fuel error is raised exactly when a chain is not found |
| Day06.OrbitChains | tests/test_d06.py:8 | in the example map B..L have the chains B:[COM], C:[B,COM], ..., L:[K,J,E,D,C,B,COM] |
| Day06.OrbitSum | tests/test_d06.py:10 | in the example map the chain lengths of B..L add up to 42 |
| Day06.OrbitsExample | tests/test_d06.py:7-10 | `get_orbits` of the eleven example lines is 42 |
| Day06.BuildTransferLines | tests/test_d06.py:13-15 | the thirteen transfer lines build the orbit example's dict with YOU orbiting K and SAN orbiting I, keys in line order |
| Day06.TransferChains | tests/test_d06.py:13 | in that map YOU's chain is [K,J,E,D,C,B,COM] and SAN's is [I,D,C,B,COM] |
| Day06.FirstCommonExample | aoc/d06.py:35-42 | the search over those two chains finds D at 3 and 1 |
| Day06.TransfersExample | tests/test_d06.py:12-16 | `get_number_of_transfers` of the thirteen example lines is 4 |
| Day06.BuildMap | aoc/d06.py:21-24 | the dict-building loop computes what the specification does, failing on a bad line |
| Day06.SearchCommon | aoc/d06.py:38-42 | the search loop computes what the specification does |
| Day07.Chain | aoc/d07.py:12-16 | the open chain never ends with a thrust before its last amplifier |
| Day07.ChainSnoc | aoc/d07.py:12-16 | each amplifier runs on the outputs of the chain before it, with its phase and their first output or 0 |
| Day07.LastAmplifierDecides | aoc/d07.py:9-18 | the thrust of a chain is the first output of its last amplifier, run on the outputs of the rest |
| Day07.GetThrusterOutput | aoc/d07.py:9-18 | the loop over phases computes the chain of the specification |
| Day07.TurnUpdates | aoc/d07.py:28-54 | turn c runs instance c mod N, created only in the first round; the inputs are the phase and carried output first, then the carried outputs; its outputs are drained and the cursor advances by one |
| Day07.TurnKeepsStarted | aoc/d07.py:28-34 | instances exist exactly for the turns taken so far |
| Day07.AllHaltedDefined | aoc/d07.py:49 | once every slot holds an instance, `all(is_halted)` is defined and true exactly when each halted |
| Day07.InitialStarted | aoc/d07.py:22-26 | the scheduler starts with no instance and cursor 0 |
| Day07.NoCrashAfterFirstRound | aoc/d07.py:28-34 | after the first round `all(is_halted)` can no longer meet an empty slot |
| Day07.WriteThenHaltStep | aoc/intcode.py:61-65 | a concrete OUTPUT instruction emits memory[0] |
| Day07.UnstartedSlotCrash | aoc/d07.py:44-50 | a program that halts in the first turn makes `all(is_halted)` meet an empty slot and crash |
| Day07.ThrustOnlyWhenAllHalted | aoc/d07.py:48-50 | the scheduler returns a thrust only after a normal return when every instance has halted, and it is that instance's first output |
| Day07.ExceptionsAreCaught | aoc/d07.py:44-47 | a suspension or any other exception in a turn is caught and the loop goes on |
| Day07.TurnContinues | aoc/d07.py:44-54 | a turn that neither runs out of fuel nor finishes drains the outputs and moves to the next instance |
| Day07.FeedbackStep | aoc/d07.py:36-54 | the loop either ends with this turn's verdict or goes on from the next state |
| Day07.FeedbackUnfold | aoc/d07.py:36-54 | a turn that goes on leaves the rest of the loop to the next state |
| Day07.RunSlot | aoc/d07.py:28-45 | `_get_runner` creates instance n once and reuses it, and `run` changes only that instance |
| Day07.DrainSlot | aoc/d07.py:52 | `pop_output` returns that instance's outputs and leaves it with none |
| Day07.TakeTurn | aoc/d07.py:37-54 | one pass of the loop over the runner array does what one turn of the specification does |
| Day07.SettleSlot | aoc/d07.py:48-54 | after a run, the halting check and the draining of the outputs end the loop or move on exactly as a turn of the specification does |
| Day07.GetThrusterOutputWithFeedback | aoc/d07.py:21-54 | the scheduler loop computes the feedback verdict of the specification |
| Day07.RunTurns | aoc/d07.py:36-54 | the `while True` loop from any scheduler state computes the feedback verdict from that state |
| Day07.NoRunners | aoc/d07.py:23 | `[None] * nb_runners` is a fresh array of empty slots that mirrors a scheduler with no instance |
| Day07.AllRunnersHalted | aoc/d07.py:49 | `all(r.is_halted() for r in runners)` over the array is the specification's answer |
| Day08.ChunksConcat | aoc/d08.py:6-9 | the layers put back together are the digit sequence |
| Day08.ChunksSizes | aoc/d08.py:6-9 | every layer holds w*h digits except perhaps the last, which is shorter but not empty |
| Day08.GetLayers | aoc/d08.py:6-9 | `get_layers` fails exactly when w*h is 0 (`range` with step 0), gives no layer for a negative size, and otherwise layers of w*h digits, the last perhaps shorter but not empty, that put back together are the digits |
| Day08.GetLayersExample | tests/test_d08.py:8-12 | "123456789012" at 3x2 gives [[1..6],[7,8,9,0,1,2]] |
| Day08.PixelIsFrontmost | aoc/d08.py:16-21 | a pixel is the value of the first layer whose value there is 0 or 1, else -1 |
| Day08.MergeUpToSpec | aoc/d08.py:12-23 | the merged image is as long as the first layer and each pixel is the frontmost 0 or 1, or -1 |
| Day08.MergeStaysMissing | aoc/d08.py:15-17 | a layer too short for some pixel makes the whole merge fail with IndexError |
| Day08.MergeExample | tests/test_d08.py:14-16 | the test's four layers merge into [0,1,1,0] |
| Day08.MergeLayers | aoc/d08.py:12-23 | the nested loops with `break` and `else` compute the merged image of the specification |
| Day08.FewestZeros | aoc/d08.py:39-46 | the chosen layer has the fewest zeros and every layer before it has strictly more |
| Day08.Checksum | aoc/d08.py:39-48 | part 1 is the 1-count times the 2-count of the first layer with fewest zeros, and 0 if no layer has fewer than 2**64 zeros |
| Day11.TurnsAreRotations | aoc/d11.py:43-57 | the left and right tables undo each other, four turns one way come back, and a turn changes the facing |
| Day11.DeltaIsUnit | aoc/d11.py:61-64 | every move is one unit, and turning round reverses it |
| Day11.ToColor | aoc/d11.py:90 | `Color(c)` succeeds exactly for 0 and 1, giving that colour, and raises ValueError for any other value |
| Day11.ToTurn | aoc/d11.py:91 | `TurnDirection(td)` succeeds exactly for 0 and 1, giving the direction of that value, and raises ValueError for any other value |
| Day11.TurnRoundTrip | aoc/d11.py:20-22 | converting a direction's value gives back the direction |
| Day11.Panel.constructor | aoc/d11.py:26-30 | a panel starts at its position with the given colour, unpainted |
| Day11.Panel.Paint | aoc/d11.py:32-34 | `paint` sets the colour and marks the panel painted |
| Day11.Robot.constructor | aoc/d11.py:38-41 | a robot starts at its position facing up |
| Day11.Robot.Turn | aoc/d11.py:43-59 | `turn` applies the left or right table and keeps the position |
| Day11.Robot.MoveForward | aoc/d11.py:61-67 | `move_forward` moves one unit in the facing direction, with up = +y |
| Day11.Start | aoc/d11.py:75-76 | the dict holds only the start panel, with the initial colour and unpainted, and the robot stands there facing up |
| Day11.Visit | aoc/d11.py:81-84 | a visited position gives its panel, a new one gets a fresh black unpainted panel added to the dict |
| Day11.OnSuspension | aoc/d11.py:88-92 | exactly two outputs (colour, turn) paint the panel, then turn, then move one unit; a bad colour or turn raises |
| Day11.Round | aoc/d11.py:80-94 | a round feeds the panel's colour, keeps the old panels, stops on a normal return; otherwise raises on an unpack, colour or turn error (the robot unchanged), paints the panel with the output colour once the colour is valid, and on success turns left for 0 and right for 1 and moves one unit that way; with one panel object per position every other panel keeps its colour and painted flag, and nothing is painted on the paths that stop before painting |
| Day12.Kick | aoc/d12.py:39-62 | the velocity change is -1, 0 or 1 towards the other moon, and 0 exactly on a disabled axis or an equal coordinate |
| Day12.PairGravityRule | aoc/d12.py:39-62 | `apply_gravity` keeps positions and the pair's velocity sum, and moves each velocity one unit towards the other moon on enabled axes |
| Day12.MoonAfterMove | aoc/d12.py:64-70 | `move` adds velocity to position on enabled axes only and keeps velocities |
| Day12.Energy | aoc/d12.py:27-37 | a moon's energy is 0 exactly when its position or its velocity is all zero |
| Day12.TotalEnergy | aoc/d12.py:87-89 | the system's energy is never negative and is 0 exactly when every moon's is |
| Day12.SameSystemIsSamePositions | aoc/d12.py:72-73 | moons compare equal on positions only, so systems compare equal exactly when their positions do |
| Day12.ApplyPair | aoc/d12.py:102-104 | applying gravity to one pair keeps the number of moons |
| Day12.GravityRow | aoc/d12.py:101-104 | one row of the pair loop keeps the number of moons |
| Day12.GravityRows | aoc/d12.py:99-104 | the rows from i on keep the number of moons |
| Day12.Moved | aoc/d12.py:106-108 | `_move` keeps the number of moons |
| Day12.ApplyPairKeeps | aoc/d12.py:102-104 | one pair's gravity keeps all positions and each axis's total velocity, and touches no disabled axis |
| Day12.GravityRowKeeps | aoc/d12.py:101-104 | one row keeps all positions and each axis's total velocity, and touches no disabled axis |
| Day12.GravityRowsKeep | aoc/d12.py:99-104 | the rows keep all positions and each axis's total velocity, and touch no disabled axis |
| Day12.GravityKeeps | aoc/d12.py:99-104 | `_apply_gravity` keeps all positions and each axis's total velocity, and touches no disabled axis |
| Day12.GravityRowVelocity | aoc/d12.py:101-104 | after row i, moon i has the kicks of every later moon and each later moon the kick of moon i |
| Day12.GravityRowsVelocity | aoc/d12.py:99-104 | after the rows from i on, each moon from i on has the kicks of the later moons |
| Day12.GravityClosedForm | aoc/d12.py:99-104 | since every pair is applied before anything moves, each moon's new velocity is its old one plus the kicks of all other moons |
| Day12.StepsKeepDisabledAxis | aoc/d12.py:91-108 | steps leave the positions and velocities of a disabled axis unchanged |
| Day12.StepsKeepMomentum | aoc/d12.py:91-108 | steps keep each axis's total velocity |
| Day12.StepsAdd | aoc/d12.py:91-93 | n steps then m steps are n + m steps |
| Day12.OtherMaskReturnsAtOnce | aoc/d12.py:117-128 | for a mask other than 1, 2 or 4, `_get_positions` is None on both sides, so the first step already counts as a return |
| Day12.Moon.constructor | aoc/d12.py:11-17 | a moon holds the given position and velocity |
| Day12.Moon.ApplyGravity | aoc/d12.py:39-62 | the method updates both moons in place as the pair rule says |
| Day12.Moon.Move | aoc/d12.py:64-70 | the method updates the moon in place as `move` says |
| Day12.System.constructor | aoc/d12.py:83-85 | the system holds the given distinct moons |
| Day12.System.E | aoc/d12.py:87-89 | the system's energy is never negative |
| Day12.System.ApplyGravity | aoc/d12.py:99-104 | the nested loops over pairs give the velocities of the specification |
| Day12.System.PullRow | aoc/d12.py:101-104 | the inner loop applies the pairs (i, j) for every j > i, in order |
| Day12.System.PullPair | aoc/d12.py:102-104 | `m1.apply_gravity(m2, axis)` on moons i and j changes those two as the pair rule says and no other moon |
| Day12.System.MoveAll | aoc/d12.py:106-108 | the loop moves every moon as the specification does |
| Day12.System.Step | aoc/d12.py:91-97 | `step(n, axis)` is n steps of gravity then move |
| Day12.System.GetPeriod | aoc/d12.py:110-128 | the result is 2*i for the first i >= 1 at which the axis's velocities are back to their start, and absent if none within the fuel; the moons are left as i steps (or fuel steps) of the axis's simulation from where they were |
| Day13.TileIds | aoc/d13.py:15 | indices 2, 5, 8, ... of the output are the tile ids, one per whole triple |
| Day13.GetBlocksAfterFirstRun | aoc/d13.py:14-19 | the loop counts the tile ids equal to 2 |
| Day13.Fresh | aoc/d13.py:46-56 | a new game has w*h empty tiles (none when w*h is not positive) |
| Day13.SetTileSpec | aoc/d13.py:106-119 | `set` succeeds exactly for a valid subscript y*w+x, writes only that tile, moves the block counter on EMPTY<->BLOCK only, and records paddle or ball positions |
| Day13.CountUpdate | aoc/d13.py:108 | writing one tile changes a value's count by the old and new tile only |
| Day13.BlocksTracked | aoc/d13.py:110-115 | when a write is an EMPTY<->BLOCK change or leaves both kinds alone, the counter stays equal to the number of block tiles |
| Day13.BlockOverWallIsNotCounted | aoc/d13.py:110-115 | a block written over a wall is not counted, so the counter does not track every block |
| Day13.SiftSpec | aoc/d13.py:86-90 | triples with x = -1 set the score to their last value, the others become pixels, and a bad tile id raises |
| Day13.SiftStaysFailed | aoc/d13.py:86-90 | once a triple raises, later triples change nothing |
| Day13.SetAllStaysFailed | aoc/d13.py:99-101 | once a `set` raises, later pixels change nothing |
| Day13.SetAllKeeps | aoc/d13.py:99-101 | `set_tiles` keeps the size, frame and score |
| Day13.UpdateSpec | aoc/d13.py:82-92 | `update` adds exactly one to the frame, takes the last score triple's value, and writes the other triples in order |
| Day13.CheckTilesStaysFailed | aoc/d13.py:72 | once a triple's tile id is invalid, the whole parse fails with it |
| Day13.AllTriples | aoc/d13.py:95-97 | the values are read as consecutive triples |
| Day13.Max | aoc/d13.py:74-75 | `max` returns an element that is at least every element |
| Day13.Xs | aoc/d13.py:74 | the x coordinates of the pixels, in order |
| Day13.Ys | aoc/d13.py:75 | the y coordinates of the pixels, in order |
| Day13.InitSpec | aoc/d13.py:71-80 | `init` sizes the grid to the largest x + 1 by the largest y + 1 and starts at frame 0 and score 0 |
| Day13.Joystick | aoc/d13.py:143-149 | the joystick input is 1, -1 or 0 by the sign of ball x minus paddle x |
| Day13.JoystickClosesGap | aoc/d13.py:143-149 | moving the paddle by the joystick input brings it one unit closer to the ball, or keeps it there |
| Day13.GameState.constructor | aoc/d13.py:46-56 | a new state is the fresh game of that size |
| Day13.GameState.Get | aoc/d13.py:103-104 | `get` reads tile y*w+x, or raises IndexError |
| Day13.GameState.UpdateCounters | aoc/d13.py:110-119 | `_update_counters` succeeds exactly for a valid subscript and updates the counters as the specification does, changing no tile |
| Day13.GameState.Set | aoc/d13.py:106-108 | `set` changes the state as the specification does, or raises with the state unchanged |
| Day13.GameState.SetTiles | aoc/d13.py:99-101 | `set_tiles` applies the pixels in order, as the specification does |
| Day13.GameState.Update | aoc/d13.py:82-92 | `update` changes the state as the specification does |
| Day13.GameState.Init | aoc/d13.py:70-80 | `init` fails exactly when the specification fails, and otherwise builds the specification's game |
| Day13.GameState.CheckTileIds | aoc/d13.py:72 | the `Tile(v)` conversions fail exactly at the first triple whose third value is not a tile id |
| Day14.StripLeft | aoc/d14.py:46 | `lstrip` removes the leading whitespace only |
| Day14.StripRight | aoc/d14.py:46 | `rstrip` removes the trailing whitespace only |
| Day14.Strip | aoc/d14.py:46 | `strip` keeps a middle part with only whitespace around it, starting and ending with non-whitespace |
| Day14.OccursAtTail | aoc/d14.py:45 | a separator occurs one position later exactly when it occurs in the tail |
| Day14.Find | aoc/d14.py:45 | the first occurrence of a separator is found, or none exists |
| Day14.Split | aoc/d14.py:45-46 | `split` gives pieces that join back into the string, and one piece exactly when the separator is absent |
| Day14.Run | aoc/d14.py:40 | the longest prefix of characters of a class |
| Day14.TermStartsAfterDigits | aoc/d14.py:40 | a match of the quantity-name pattern takes the whole leading run of digits |
| Day14.ParseTerm | aoc/d14.py:47-57 | a term parses exactly when it starts with digits, a space and uppercase letters, giving that name and quantity |
| Day14.Gather | aoc/d14.py:47-51 | the loop over the matches gives one chemical per match, or the ValueError Invalid input for the line |
| Day14.GatherSpec | aoc/d14.py:47-51 | gathering succeeds exactly when every term matched, and then chemical i is what match i gave |
| Day14.ParseInputs | aoc/d14.py:46-51 | the input terms give one chemical each, or the ValueError Invalid input for the line |
| Day14.ParseInputsSpec | aoc/d14.py:46-51 | the inputs parse exactly when every stripped term matches the pattern, and then input i is what term i gives |
| Day14.ParseLine | aoc/d14.py:44-59 | a line unpacks exactly when it splits at " => " into two parts; a parsed reaction has the left part's comma-separated terms as inputs and the right part's term as output; any other failure is Invalid input |
| Day14.ParseLines | aoc/d14.py:43-59 | every line is parsed on its own |
| Day14.CollectSpec | aoc/d14.py:41-61 | `parse_reactions` succeeds exactly when every line does, keyed by output name, the last line for a name winning |
| Day14.CollectStaysFailed | aoc/d14.py:43-59 | the first bad line decides the error |
| Day14.ParseReactions | aoc/d14.py:39-61 | the parse loop computes the dict of the specification |
| Day14.BelowStrict | aoc/d14.py:76 | Python string order is strict and total |
| Day14.BelowTransitive | aoc/d14.py:76 | Python string order is transitive |
| Day14.NamesAt | aoc/d14.py:77 | a name is among the chemicals exactly when some chemical has it |
| Day14.TotalAppend | aoc/d14.py:77 | one more chemical adds its quantity to its own name's total only |
| Day14.TotalOfSorted | aoc/d14.py:77 | in a sorted list of distinct names, an entry's quantity is its name's total |
| Day14.TotalAbsent | aoc/d14.py:77 | a name that does not occur totals 0 |
| Day14.InsertSpec | aoc/d14.py:76-77 | adding one chemical to a merged list keeps it sorted and adds its quantity to its name |
| Day14.MergeSpec | aoc/d14.py:75-77 | `merge` returns one entry per distinct name, sorted by name, each holding that name's summed quantity |
| Day14.NamesAppend | aoc/d14.py:77 | one more chemical adds its name |
| Day14.FirstFree | aoc/d14.py:65 | the chosen chemical is the first one no remaining reaction uses as input |
| Day14.Without | aoc/d14.py:67 | the filter drops every entry equal to the chosen chemical and keeps the rest |
| Day14.CeilDiv | aoc/d14.py:69 | the ratio is the ceiling of quantity over the output quantity |
| Day14.Scale | aoc/d14.py:70 | each input of the reaction is multiplied by the ratio |
| Day14.SubstituteSpec | aoc/d14.py:64-72 | `substitute` fails exactly when every chemical is used by a remaining reaction, else replaces the first free one by its reaction's scaled inputs and deletes that reaction |
| Day14.GetOreNeeded | aoc/d14.py:80-96 | the loop consumes the reactions one per iteration and returns the quantity of the single chemical left only if it is ORE |
| Day14.OreNeeded | aoc/d14.py:80-96 | no FUEL reaction raises KeyError; a result means that consuming every other reaction from FUEL's inputs leaves exactly that much ORE and nothing else |
| Day14.OreNeededExample | aoc/d14.py:80-96 | FUEL from 2 A, with 2 A from 3 ORE, needs 3 ORE |
| Day15.Translate | aoc/d15.py:34-39 | `translate` moves one unit: up (0,-1), down (0,1), left (-1,0), right (1,0) |
| Day15.TurnsAndMoves | aoc/d15.py:60-74 | the turns are mutual inverses, turning round and moving returns to the start, and the neighbours in different directions differ |
| Day15.Neighbors | aoc/d15.py:157-158 | `get_neighbors` keeps exactly the points at distance 1, without adding repeats |
| Day15.NeighborsAppend | aoc/d15.py:157-158 | filtering two runs of points one after the other is filtering their concatenation, so the neighbours keep the order of the points |
| Day15.Remove | aoc/d15.py:166 | `list.remove` of a distinct list drops exactly that element |
| Day15.DistinctTail | aoc/d15.py:172 | the tail of a distinct list is distinct and does not hold its head |
| Day15.RemoveAll | aoc/d15.py:168-169 | removing a list of elements from a distinct list drops exactly those |
| Day15.Robot.constructor | aoc/d15.py:50-52 | the robot starts at the given position and direction |
| Day15.Robot.NextPos | aoc/d15.py:54-55 | the next position is adjacent to the robot |
| Day15.Robot.SetPos | aoc/d15.py:57-58 | `set_pos` changes only the position |
| Day15.Robot.TurnRight | aoc/d15.py:60-66 | `turn_right` applies the right table and keeps the position |
| Day15.Robot.TurnLeft | aoc/d15.py:68-74 | `turn_left` applies the left table and keeps the position |
| Day15.Map.constructor | aoc/d15.py:86-92 | the map starts with only the origin, EMPTY, and no oxygen |
| Day15.Map.SetTile | aoc/d15.py:94-95 | `set_tile` sets one tile, and a new position goes last in the dict order |
| Day15.Map.GetTile | aoc/d15.py:97-98 | `get_tile` returns the recorded tile, or UNKNOWN |
| Day15.Map.Walkable | aoc/d15.py:100-101 | the walkable positions are exactly the recorded non-WALL ones, without repeats |
| Day15.NotWalls | aoc/d15.py:101 | the comprehension keeps exactly the keys whose tile is not WALL |
| Day15.Respond | aoc/d15.py:131-149 | response 0 marks a wall ahead and turns left; 1 or 2 mark the tile (2 also records oxygen), move and turn right; other, missing or extra responses raise with nothing changed |
| Day15.AdjacentDistances | aoc/d15.py:173 | the candidate distances are those of recorded tiles adjacent to the tile, and there is one when such a tile exists |
| Day15.Min | aoc/d15.py:173 | `min` returns an element that is at most every element |
| Day15.GetDistancesFrom | aoc/d15.py:161-181 | fails exactly when the start is not walkable; else every tile reachable from the start by a walk over walkable tiles is recorded, and each recorded distance is the fewest moves from the start |
| Day15.MinIsLeast | aoc/d15.py:173 | `min(...) + 1` is one more than some adjacent recorded distance and at most one more than each |
| Day15.VisitLevels | aoc/d15.py:171-179 | one pass of the loop keeps the queue in breadth-first order: at most two consecutive levels, the current one first |
| Day15.LevelsSameLevel | aoc/d15.py:171-179 | visiting a tile of the current level records it at that level and queues its new neighbours on the next |
| Day15.LevelsNextLevel | aoc/d15.py:171-179 | once the current level is used up, the head of the next level is recorded one further and that level becomes current |
| Day15.TightAdd | aoc/d15.py:173-174 | recording a tile within one of each recorded neighbour keeps adjacent distances within one of each other |
| Day15.WalkBound | aoc/d15.py:171-181 | every walk from the start ends on a recorded tile whose distance is at most the walk's number of moves |
| Day15.ChainWalk | aoc/d15.py:173-174 | each recorded tile has a walk from the start of exactly its distance |
| Day15.DistancesAreShortest | aoc/d15.py:161-181 | n is the fewest moves from the start to a tile if and only if the tile is recorded at n |
| Day15.DistancesUnique | aoc/d15.py:161-181 | only one distance map meets the invariant for a start and a floor |
| Day15.RemoveEach | aoc/d15.py:168-169 | the loop removes each element in turn |
| Day15.MoveEach | aoc/d15.py:177-179 | the loop moves each neighbour from the remaining tiles to the queue |
| Day15.HeadNeighbor | aoc/d15.py:172-173 | the tile taken from the queue always has an adjacent tile with a distance, so `min` never sees an empty sequence |
| Day15.FrontierEnds | aoc/d15.py:171-181 | when the queue is empty the distances are closed under adjacency |
| Day15.FrontierStarts | aoc/d15.py:162-169 | the set-up before the loop establishes the loop invariant |
| Day15.VisitPartition | aoc/d15.py:172-179 | each tile leaves the remaining list when queued, so it is queued once and the remaining list shrinks |
| Day15.VisitChained | aoc/d15.py:173-174 | a distance one more than an adjacent tile's keeps every distance chained back to the start |
| Day15.VisitQueued | aoc/d15.py:172-179 | queued tiles have no distance yet |
| Day15.VisitExplored | aoc/d15.py:176-179 | every walkable neighbour of a visited tile is visited or queued |
| Day15.VisitKeeps | aoc/d15.py:171-179 | one pass of the loop keeps the invariant and shrinks the remaining list by the tiles it queues |
| Day15.DistinctConcat | aoc/d15.py:179 | appending new distinct tiles to a distinct queue keeps it distinct |
| Day15.RemoveAllSnoc | aoc/d15.py:168-169 | removing one more element is one more `list.remove` |
| Day15.RemoveAllSize | aoc/d15.py:168-169 | removing distinct present elements shortens the list by their number |
| Day15.ChainBound | aoc/d15.py:173-174 | every distance is at least the Manhattan distance from the start |
| Day15.ReachedWithin | aoc/d15.py:171-181 | every tile with a distance lies in any adjacency-closed region holding the start |
| Day15.MaxDistance | aoc/d15.py:193 | `max` over the distances is one of them and at least each |
| Day15.FindShortestPath | aoc/d15.py:184-187 | succeeds exactly when the oxygen is recorded and some walk leads to it from the origin, returning the fewest moves, which are at least its Manhattan distance |
| Day15.MaxOfDistances | aoc/d15.py:193 | the largest recorded distance is the fewest moves to some tile, and no reachable tile needs more |
| Day15.FindMaxDistanceFromOxy | aoc/d15.py:190-193 | fails exactly when no oxygen is recorded or it is not walkable, else returns the largest over reachable tiles of the fewest moves from the oxygen |
| Day16.PhasesShape | aoc/d16.py:7-26 | each pass keeps the length and gives digits 0..9, and 0 passes return the input |
| Day16.Phase | aoc/d16.py:11-22 | one pass keeps the signal's length and gives digits 0..9 |
| Day16.SuffixPhasesShape | aoc/d16.py:29-44 | each `fft2` pass keeps the length and gives digits 0..9 |
| Day16.CoefInBlock | aoc/d16.py:16-20 | in the pattern of output k, the four blocks after a repeat start weigh +1, 0, -1, 0 |
| Day16.CoefBeforeK | aoc/d16.py:14 | inputs before index k have weight 0 in output k |
| Day16.SliceSum | aoc/d16.py:17 | the sum of a clamped slice is the sum over the clamped range |
| Day16.ConstantBlock | aoc/d16.py:16-20 | a run of equal weights adds that weight times the run's sum |
| Day16.ZeroBeforeK | aoc/d16.py:14 | the inputs before k add nothing to output k |
| Day16.BlockWeight | aoc/d16.py:16-20 | each block of k+1 inputs has one weight |
| Day16.BlockStep | aoc/d16.py:17-19 | one block adds, subtracts or skips the sum of its slice |
| Day16.TwoBlocks | aoc/d16.py:17-20 | a +1 block and the 0 block after it add the first slice's sum; likewise for -1 |
| Day16.FourBlocks | aoc/d16.py:16-20 | one pass of the while loop adds the sum of one slice and subtracts the sum of the slice 2(k+1) later |
| Day16.SecondHalfIsSuffixSum | aoc/d16.py:35-40 | in the second half of the signal, the pattern sum is the suffix sum, so `fft2` agrees with `fft` there |
| Day16.FirstPhaseExampleFront | tests/test_d16.py:9 | one pass over 12345678 starts 4, 8, 2, 2 |
| Day16.FirstPhaseExampleBack | tests/test_d16.py:9 | one pass over 12345678 ends 6, 1, 5, 8 |
| Day16.FirstPhaseExample | tests/test_d16.py:9 | one pass over 12345678 gives 48226158 |
| Day16.Digit | aoc/d16.py:13-22 | the inner while loop gives output k as the absolute pattern-weighted sum mod 10, weight +1 where (j+1) div (k+1) is 1 mod 4 and -1 where it is 3 mod 4 |
| Day16.Fft | aoc/d16.py:7-26 | `fft` applies the pattern-weighted pass `passes` times |
| Day16.Fft2 | aoc/d16.py:29-44 | `fft2` gives output i as the absolute suffix sum from i mod 10, `passes` times |
| Day24.Pow2 | aoc/d24.py:13 | `1 << i` is positive |
| Day24.OrHighBit | aoc/d24.py:13 | or-ing a bit above a number adds it |
| Day24.HighBitsClear | aoc/d24.py:23 | a number below 2^n has no bit from n on |
| Day24.AddHighBit | aoc/d24.py:13 | adding 2^n to a number below it sets bit n and keeps the others |
| Day24.MaskBits | aoc/d24.py:11-13 | setting bit i for each true flag gives a number whose bits are exactly the flags |
| Day24.MaskOfPrefix | aoc/d24.py:11-13 | each pass of the loop or-s in at most bit i |
| Day24.WithoutNewlines | aoc/d24.py:9 | `replace("\n", "")` leaves no newline, keeps every other character as often as it occurred, and changes a text without newlines not at all |
| Day24.WithoutNewlinesAppend | aoc/d24.py:9 | dropping the newlines of two pieces and joining them is dropping them from the joined text, so the kept characters stay in order |
| Day24.ParsedBits | aoc/d24.py:7-15 | bit i of the parsed state is set exactly when character i, newlines dropped, is '#' |
| Day24.ParseInput | aoc/d24.py:7-15 | the loop computes the parsed state |
| Day24.TickUpToIsMask | aoc/d24.py:21-33 | the loop sets bit i exactly for the cells that are alive next |
| Day24.AliveBits | aoc/d24.py:21-33 | after the first n cells, the state is below 2^n and bit i is set exactly for i < n whose cell is alive next |
| Day24.Tick | aoc/d24.py:18-35 | the next state is below 2^25 and bit i is set exactly for a cell of the grid that is alive next |
| Day24.NeighboursExplicit | aoc/d24.py:25-30 | a cell counts only its orthogonal neighbours inside the 5x5 grid |
| Day24.NeighbourCells | aoc/d24.py:25-30 | the neighbours are up, down, and left and right within the same row, with no wraparound |
| Day24.TickBits | aoc/d24.py:18-35 | `tick` uses bits 0..24 only; a bug survives with exactly 1 neighbour, and an empty cell gets a bug with 1 or 2 |
| Day24.TickReadsLowBits | aoc/d24.py:21-33 | `tick` depends only on bits 0..24 of its input |
| Day24.TickMethod | aoc/d24.py:18-35 | the loop computes the tick of the specification |
| Day24.CountNeighbours | aoc/d24.py:25-30 | the inner loop counts the live orthogonal neighbours inside the grid |
| Day24.FirstRepeatUnique | aoc/d24.py:48-57 | the first repeat index is unique |
| Day24.BoundedSetSize | aoc/d24.py:53 | a set of numbers below n holds at most n, so the loop ends |
| Day24.RepeatClosesRun | aoc/d24.py:53-55 | the state that is already in the set of seen states is the first repeat |
| Day24.FirstRepeat | aoc/d24.py:48-57 | the loop over a bounded step returns the first state equal to an earlier one, the start included |
| Day24.FirstRepeatState | aoc/d24.py:48-57 | `get_first_repeat_state` returns the first ticked state equal to an earlier one, the start included |
| Day17.FindFromSound | aoc/d17.py:21-32 | every position found is at or after the offset, matches the block, and is at least the previous one plus the block length |
| Day17.FindFromComplete | aoc/d17.py:21-32 | every match at or after the offset overlaps a found position's span |
| Day17.FindBlock | aoc/d17.py:17-32 | the scan loop returns the positions of the specification, and none for an empty block |
| Day17.FindExamples | aoc/d17.py:17-32 | overlapping matches are skipped: "a,a" in "a,a,a" is found at 0 only, and "a,b" in "a,b,a,b,a" at 0 and 2 |
| Day17.GetNextBlock | aoc/d17.py:35-54 | the block starts at the offset, repeats later when it is not empty, joins to at most 20 characters from 2 elements on, and one element more would not repeat or would be too long; the block is empty exactly when the first element does not repeat later |
| Day17.Grow | aoc/d17.py:36-45 | the loop stops at the first length that does not repeat or is too long |
| Day17.RepeatsInside | aoc/d17.py:35-54 | a block that repeats lies inside the data |
| Day17.Cut | aoc/d17.py:69 | cutting a block out never lengthens the data, and cutting at 0 shortens it |
| Day17.Descending | aoc/d17.py:68 | `sorted(positions + [0], reverse=True)` is the positions reversed then 0, strictly decreasing |
| Day17.Reverse | aoc/d17.py:68 | the positions in reverse order |
| Day17.Compress | aoc/d17.py:57-74 | blocks are named 'A', 'B', 'C', ... in discovery order; each is non-empty and joins to at most 20 characters from 2 elements on; there are at most as many blocks as data elements |
| Day17.TurnsUndo | aoc/d17.py:198-212 | the turn tables undo each other and each changes the direction |
| Day17.Grid.constructor | aoc/d17.py:78-84 | the grid keeps its rows, width and height, and the robot's position and direction |
| Day17.Grid.GetTile | aoc/d17.py:110-114 | `get_tile` returns None exactly outside 0 <= x < w, 0 <= y < h, and the cell otherwise |
| Day17.Grid.JunctionIsInterior | aoc/d17.py:116-129 | a junction never lies on the edge |
| Day17.Grid.GetJunctions | aoc/d17.py:116-129 | the result holds exactly the '#' cells whose four neighbours are '#', column by column |
| Day17.Grid.NextRobotTile | aoc/d17.py:217-222 | the next tile is the tile one step ahead of the robot |
| Day17.Grid.TurnRobotLeft | aoc/d17.py:198-204 | the left table |
| Day17.Grid.TurnRobotRight | aoc/d17.py:206-212 | the right table |
| Day17.Grid.StepRobot | aoc/d17.py:224-229 | the robot moves one unit in its direction |
| Day17.Grid.TryTurn | aoc/d17.py:175-188 | tries left, then right, else restores the direction and returns None; a returned turn leaves the robot able to move |
| Day17.Grid.MoveRobotStraight | aoc/d17.py:190-196 | the robot walks n tiles straight, every one scaffold, and then cannot move |

## Left out

- Debug printing (`dbgprint` and the DEBUG flag in `aoc/intcode.py` and `d05.py`) is tracing to stdout.
- The console in `d05.py`: the stdin fallback of `_read` stops the model with a ConsoleRead outcome, and `_print` records its value as an output instead of printing it.
- The later interpreter API (`IntCodeCPU`, `poke`, `pop_output`, `is_halted`, `InterruptCode`, relative mode, memory growth) is not part of this model. Its callers are mapped onto `IntCodeRunner`: `pop_output` is `pop_outputs`, `is_halted` is the halt flag, and `poke(a)` is `memory[a]`.
- The tests of that later API in `tests/test_intcode.py`, and its exact-ip assertions after a halt, are not part of this model.
- Python list subscripts are modelled exactly, with negative indices and IndexError as a value, instead of being required to lie in range.
- The source's aliasing of a program list passed in is not followed: the interpreter of `aoc/intcode.py` owns its memory. The one of `d05.py` writes the caller's array, as its source does.
- IntCode.IntCodeRunner.Run: takes a fuel bound; a run that has not ended within it reports OutOfFuel, which the source cannot do.
- Day07.GetThrusterOutputWithFeedback: takes a bound on turns and reports Exhausted past it; the source loops forever.
- Day07: the printing of caught exceptions is left out. The maxima over permutations of 0..4 and 5..9 in `main` are left out as plumbing.
- Day06.ListParentsIsChain: `list_parents` takes fuel because it recurses forever on a cyclic map; the lemmas speak about chains found within the fuel.
- Day11.Round: that the other panels keep their colour and painted flag is promised only for a dictionary with one panel object per position (`Separate`). `Start` gives such a dictionary and `Round` keeps it, but a caller's own dictionary whose positions share an object is not covered.
- Day12.System.GetPeriod: takes a fuel bound and returns None past it; the source loops forever.
- Day12: `get_steps_before_repeat` (numpy lcm), the regex of `create_system`, and the energy vectors 179 and 1940 of the tests are left out.
- Day12.ApplyPair: states only that the number of moons is kept; the pair rule and conservation are in Day12.PairGravityRule and Day12.ApplyPairKeeps. The same holds for Day12.GravityRow, Day12.GravityRows and Day12.Moved.
- aoc/d10.py is not part of this model: it relies on floating-point angles.
- The float path of day 14 (`no_waste`, `get_fuel_for_ore`) is left out; only the integer ceiling path is modelled.
- Day14.MergeSpec: `merge` also sorts its argument list in place for the caller; the model returns the merged list only.
- Day14: the name-and-quantity pattern is modelled by its own parser, not by a regular-expression engine.
- Rendering (`render`, `render_panels`, `render_image`) is left out: it draws on the terminal.
- Every `main`, the timing code and the file loading of `aoc/utils.py` are plumbing.
- `aoc/d05.py` and `aoc/d09.py` only run the interpreter and return an output, so they are not modelled separately.
- The loops that drive an unseen puzzle program are left out: `play` of day 13, the `generate_floor` loop of day 15, `Grid.build` and the feeding in `main` of day 17, and the `run_robot` loop of day 11. Only their per-step rules are modelled: Day13.Joystick, Day15.Respond, Day11.Round.
- `split_list` is not part of this model. It is taken to cut a list into consecutive triples, so Day13.UpdateSpec and Day13.InitSpec require a length divisible by 3.
- Day13.GameState.Update: an exception part-way through leaves the game in the state the specification's error reaches; only the result is stated for that case.
- Day03: the test vectors of `tests/test_d03.py` are left out as too costly for the verifier; Day03.TraceExample checks a small wire instead.
- Day16: the vectors for passes 2 to 4 of `tests/test_d16.py` are left out as too costly for the verifier; only the first pass is proved.
- Day24: the parse and tick vectors of `tests/test_d24.py` are left out as too costly for the verifier. States are natural numbers, so Python's negative integers are not modelled.
- Day15.GetDistancesFrom: requires a walkable list without repeats, which holds because that list comes from dictionary keys.
- IntCode.IntCodeRunner.constructor: takes the program as a list of integers. The branch that splits a string program at "," and converts each piece with `int` is not modelled, nor the ValueError it raises on a bad piece; the `main` of `aoc/d07.py` passes the raw text of its input file, so the day 7 model receives the parsed integers.
- Day02.GetProgramOutput: takes the program as a list of integers. The `split(",")` and the conversion of each piece with `int` are not modelled, nor their ValueError.
- Day03.WireTracer.constructor: requires at least one wire. With none, `self.wires[0]` raises IndexError, which is not modelled.
- Day03: the moves are taken already parsed into a letter and a count. The parse `m[0], int(m[1:])` of each word is not modelled, nor its IndexError on an empty word or its ValueError on a bad count.
- Day08.GetLayers: takes the digits as integers. The `int(c)` of each character is not modelled, nor its ValueError on a character that is not a digit.
- Day17: `get_movements` and `get_dust_routine` are left out. They hard-code the puzzle's three patterns and rewrite a string with `replace`.
- Day17.Grid.constructor: requires rectangular rows of at least one row, which is what the width `len(grid[0])` presumes.
- Day17.Compress: block names are kept as their code points (65 for 'A'). It does not tie any block to the data, not even the first block to `get_next_block(data, 0)`, and it does not state how the data shrinks.
- Day17.FindBlock: the offset is a natural number; a negative offset would index from the end in Python.
- Day17.GetNextBlock: the branch `if block_len == 0` in the source cannot be taken, because the length starts at 1 and only grows before the decrement, so it is not modelled.
