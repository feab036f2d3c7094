# Advent of Code 2019 solutions: Intcode machine and puzzle cores in Dafny

This project models a Rust crate of Advent of Code 2019 solutions and proves properties of the model.

**The Intcode virtual machine** (`Intcode`, `IntcodeLaws`, `IntcodeRuns`):
- **Decoder.** An instruction word splits into an opcode (`word % 100`) and one addressing mode per operand. The mode of operand i is decimal digit i + 2 of the word: 0 Position, 1 Immediate, 2 Relative.
- **Memory.** A program vector grows on demand (`ensure_min`).
- **Operands.** Each operand is resolved against the relative base.
- **Run loop.** It executes until an instruction makes it return.

The program talks to its environment through an I/O bus with two operations:
- `input` may supply a value or refuse (`None`). A refusal stops the machine.
- `output` may ask the machine to stop.

The crate implements this bus five times, and each implementation is modelled as a small state machine:
- `NoIoBusImpl` refuses, or panics.
- Day 5's `DiagnosticIoBus` always feeds the same id and keeps the last output.
- Day 7's `PhaseIoBus` feeds a phase once, then a signal, and stops on every output.
- Day 9's `BoostIoBus` feeds its value and stops on the first output.
- Day 11's `RobotBus` is a hull-painting robot.

**The puzzle cores built around it:**
- day 1: module fuel, including the recursive fuel;
- day 2: the noun/verb search;
- day 3: wire segments and their line intersections;
- day 4: six-digit password rules and range counts;
- day 5: the diagnostic run;
- day 6: orbit maps, orbit counts and orbital transfers;
- day 7: amplifier chains and the feedback loop;
- day 8: image layers, the least-corrupted layer and compositing;
- day 9: the BOOST keycode;
- day 11: the robot's direction algebra and painted panels;
- day 12: moon gravity, velocity, energy and gcd/lcm.

**Modelling conventions:**
- **Bus state.** A bus is a value of type `IoBus<S>`: two functions from the bus state `S` to a reply and the next state. The run threads the bus state through instead of mutating it through `&mut`.
- **Fuel bound.** The run loop need not terminate, so `Exec` carries a fuel bound. Running out of fuel is a distinct outcome, `OutOfFuel`.
- **Panics.** A Rust panic (an out-of-range index, an `expect`, a failed `debug_assert`, a panicking bus) becomes an error value.
- **State changes.** Code that changes state in place keeps that shape:
  - `Memory.EnsureMin` and `Run` work on a `Memory` object.
  - Day 4's digit scan and day 7's program counters work on arrays.
  - Day 12's moons are an `array<CelestialObject>` updated in place.
  - Each method is proved equal to a specification function, and the lemmas are stated about that function.
- **Integers** are unbounded.
- **Rust's truncating `/` and `%`** are written out as `TruncDiv`, `TruncRem` and `Quot`.

## Model

| member | source | states |
|---|---|---|
| Intcode.Size | src/intcode.rs:247-262 | an instruction's size is one more than its operand count: 4 for Add/Mul/LT/EQ, 3 for the jumps, 2 for Input/Output/ModRelBas, 1 for Hlt |
| Intcode.TruncRem | src/intcode.rs:274 | Rust's signed remainder, as in `instr % 100`: its magnitude is below the modulus and its sign follows the dividend |
| Intcode.DigitAtPos | src/intcode.rs:399-420 | `digit_at_pos` succeeds exactly on non-negative numbers (a negative one is the "Negative values" panic) and always yields a digit 0..9 |
| Intcode.DigitAtPosExpansion | src/intcode.rs:399-420 | the digit at position p is the p-th decimal digit: n = (n / 10^(p+1))·10^(p+1) + digit·10^p + n mod 10^p |
| IntcodeLaws.DigitAtPosExamples | src/intcode.rs:439-454 | digit 0 of 3 and of 13 is 3, digit 7 of 13 is 0, and any digit of -13 is an error |
| Intcode.ParseMod | src/intcode.rs:350-372 | a decoded operand's mode is digit param+2 of a non-negative instruction word, and its raw value is the word at offset param+1; a missing word or a mode digit outside 0..2 is an error |
| Intcode.ModeDetermines | src/intcode.rs:350-372 | an operand is determined by its mode digit and its raw value |
| Intcode.Decode | src/intcode.rs:264-326 | every operand of a decoded instruction lies inside memory |
| Intcode.DecodeSound | src/intcode.rs:264-326 | a successful decode is an encoding: the opcode is `word % 100`, and each operand's mode digit and raw word agree with memory |
| Intcode.DecodeComplete | src/intcode.rs:264-326 | every encoding decodes to exactly that instruction, so decoding inverts encoding |
| Intcode.DecodeExample | src/intcode.rs:468-481 | `[1001, 1, 1, 1]` decodes to Add(Position 1, Immediate 1, Position 1) |
| Intcode.DecodeShortExamples | src/intcode.rs:456-481 | `[99]` is Hlt, `[3, 1]` is Input(Position 1), `[4, 1]` is Output(Position 1), and empty memory is an error |
| Intcode.Grown | src/intcode.rs:422-437 | `ensure_min(idx, v)` never shrinks memory, keeps every existing cell, leaves it longer than idx, and fills new cells with v |
| Intcode.Memory.EnsureMin | src/intcode.rs:430-436 | the in-place resize leaves exactly `Grown(old cells, idx, v)` |
| Intcode.Index | src/intcode.rs:338-348 | the address an operand designates: an Immediate is the "not an index" fault, a Position is its own address, and a Relative is offset + base, a fault when negative; `IntcodeLaws.ImmediateDestinationFaults` and `IntcodeLaws.StoreWritesOneCell` state what the stores make of it |
| Intcode.Read | src/intcode.rs:329-348 | an Immediate operand reads as its value; a Position/Relative operand reads successfully iff its resolved address is non-negative and inside memory, and then yields that cell (reads never grow memory) |
| Intcode.NoIoInput | src/intcode.rs:375-383 | `NoIoBusImpl.input` panics iff its flag is set, otherwise answers None and keeps its state |
| Intcode.NoIoOutput | src/intcode.rs:384-391 | `NoIoBusImpl.output` panics iff its flag is set, otherwise asks the machine to stop |
| Intcode.Arith | src/intcode.rs:78-90 | Add/Mul grow memory to the destination address, then store the sum or product of the operands read from the grown memory; `IntcodeLaws.StoreWritesOneCell` states that exactly that cell changes and `IntcodeLaws.NextPc` that pc advances by the size |
| Intcode.DoInput | src/intcode.rs:92-103 | Input returns in place when the bus gives no value and otherwise stores the value at the grown destination; `IntcodeLaws.StopCases` and `IntcodeLaws.StoreWritesOneCell` state both cases |
| Intcode.DoOutput | src/intcode.rs:105-111 | Output hands the operand's value to the bus and returns in place iff the bus asks to stop; `IntcodeLaws.StopCases`, `IntcodeRuns.BusStep` and `Intcode.EmittedStep` state this |
| Intcode.Jump | src/intcode.rs:113-131 | JNZ jumps on a non-zero condition and JZ on zero, to the target operand's value (a negative target is the `debug_assert` fault); `IntcodeLaws.NextPc` states where pc goes |
| Intcode.Compare | src/intcode.rs:133-147 | LT/EQ store 1 or 0 at the address given by the third operand's value, which must already exist; `IntcodeLaws.CompareWritesOneCell` states the write and its frame |
| Intcode.SetBase | src/intcode.rs:149-153 | ModRelBas makes the operand's value the relative base (a negative one is the `debug_assert` fault); `IntcodeLaws.RelativeBaseAssigned` states that it assigns and nothing else touches the base |
| Intcode.Apply | src/intcode.rs:72-153 | the match arm for one decoded instruction; `IntcodeLaws.StopCases` states when it returns, `IntcodeLaws.NextPc` where pc goes, and `IntcodeRuns.ApplyNeverShrinks` that memory never shrinks |
| Intcode.Step | src/intcode.rs:69-158 | one loop iteration: decode at pc, then apply; `IntcodeRuns.BusStep` states that only Input and Output consult the bus |
| Intcode.Exec | src/intcode.rs:58-162 | `run` bounded by a fuel count; `Intcode.ExecStep` unfolds one iteration, `IntcodeLaws.ExecFuelMonotone` shows the bound only cuts off unfinished runs, and `IntcodeRuns.ReturnedAtStop` that every return sets `has_halted` |
| Intcode.ExecStep | src/intcode.rs:58-162 | one iteration of the run loop: a fault ends the run, a returning instruction yields `has_halted = true` with the new state, and anything else continues from the new state |
| Intcode.EmittedStep | src/intcode.rs:105-111 | the values a run outputs are the current Output's value followed by those of the rest of the run |
| Intcode.ExecUndecodable | src/intcode.rs:69-72 | a word at pc that does not decode ends the run with that fault |
| Intcode.Execute | src/intcode.rs:72-158 | executing one instruction in place leaves memory as the step function says and yields the same effect |
| Intcode.Advance | src/intcode.rs:69-158 | one in-place loop iteration agrees with the run function on the old memory |
| Intcode.Run | src/intcode.rs:58-162 | the in-place run loop returns exactly the outcome of the run function on the initial memory, and leaves memory in the final state |
| IntcodeLaws.StopCases | src/intcode.rs:69-111 | a step returns exactly at Hlt, at Input when the bus gives no value, and at Output when the bus asks to stop; pc, relative base and memory are then unchanged (pc still points at the Input/Output) |
| IntcodeLaws.NextPc | src/intcode.rs:113-158 | a taken JNZ/JZ moves pc to the target's value; every other continuing step advances pc by the instruction's size |
| IntcodeLaws.StoreWritesOneCell | src/intcode.rs:78-103 | Add/Mul/Input zero-grow memory to the destination address (Position, or offset + relative base) and change only that cell, to the sum, product or input value |
| IntcodeLaws.CompareWritesOneCell | src/intcode.rs:105-153 | LT/EQ store 1 or 0 at the address given by the third operand's value without growing memory; Output, the jumps and ModRelBas leave memory unchanged |
| IntcodeLaws.RelativeBaseAssigned | src/intcode.rs:149-153 | ModRelBas replaces the relative base with its operand's value rather than adding to it; no other instruction changes the base |
| IntcodeLaws.ImmediateDestinationFaults | src/intcode.rs:338-348 | an Add/Mul/Input whose destination is Immediate fails with the `index` fault |
| IntcodeLaws.NoIoRefuses | src/intcode.rs:375-397 | with `NoIoBusImpl`, Input and Output panic when the flag is set and otherwise stop the machine in place |
| IntcodeLaws.ExecFuelMonotone | src/intcode.rs:69-159 | a run that finishes within some fuel has the same outcome with any larger fuel, so the bound only cuts off non-terminating runs |
| IntcodeLaws.RunExampleSum | src/intcode.rs:483-488 | `[1,9,10,3,2,3,11,0,99,30,40,50]` halts at pc 8 with cell 0 = 3500 |
| IntcodeLaws.RunExampleProduct | src/intcode.rs:490-493 | `[1,1,1,4,99,5,6,0,99]` halts at pc 8 with cell 0 = 30 |
| IntcodeRuns.BusStep | src/intcode.rs:92-111 | only Input and Output touch the bus: Input continues iff the bus gives a value, and Output continues iff the bus does not ask to stop |
| IntcodeRuns.ExecReplays | src/intcode.rs:58-162 | for any view of the bus state that input leaves alone and output updates by a fold, the final view is that fold over the values the run output |
| IntcodeRuns.ReturnedAtStop | src/intcode.rs:69-111 | a run that returns has `has_halted` set and stands at Hlt, at an Input the bus refused, or at an Output after which the bus asked to stop |
| IntcodeRuns.EmitsAtMostOne | src/intcode.rs:105-111 | with a bus that stops on every output, a run outputs at most one value |
| IntcodeRuns.ApplyNeverShrinks | src/intcode.rs:72-153 | no instruction shrinks memory |
| IntcodeRuns.ExecNeverShrinks | src/intcode.rs:58-162 | a run never shrinks memory, and a run that returns had non-empty memory |
| IntcodeRuns.ReplayLatest | src/day5.rs:10-13 | folding "overwrite with the new value" over outputs leaves the last output, or the start value if there were none |
| Day1.CalculateFuel | src/day1.rs:24-26 | a third of the mass rounded toward zero, minus 2; `Day1.CalculateFuelLaws` brackets it and proves it monotone and below a positive mass |
| Day1.CalculateFuelLaws | src/day1.rs:24-26 | `calculate_fuel` is truncating division by 3 minus 2; it is monotone and below a positive mass |
| Day1.CalculateFuelExamples | src/day1.rs:37-41 | fuel for 12, 14 and 1969 is 2, 2 and 654 (and 33583 for 100756) |
| Day1.RecursiveFuel | src/day1.rs:28-35 | recursive fuel is 0 for mass ≤ 0 and at least `calculate_fuel(mass)` otherwise; the recursion descends because fuel < mass |
| Day1.RecursiveFuelStep | src/day1.rs:33-34 | recursive fuel of a positive mass is its fuel plus the clamped recursive fuel of that fuel |
| Day1.RecursiveFuelIsChainSum | src/day1.rs:28-35 | recursive fuel is the sum of the positive fuel chain mass → fuel → fuel of fuel … |
| Day1.RecursiveFuelExamples | src/day1.rs:42-45 | recursive fuel of 12, 14, 1969 and 100756 is 2, 2, 966 and 50346 |
| Day1.Gen | src/day1.rs:2-8 | the generator maps every mass to its fuel, position by position |
| Day1.GenAppend | src/day1.rs:2-8 | the generator distributes over concatenation |
| Day1.Part1 | src/day1.rs:10-13 | the sum of the fuels; `Day1.Part1Additive` and `Day1.Part1Single` state its value |
| Day1.Part1Additive | src/day1.rs:10-13 | part 1 (sum of fuels) is additive over module lists |
| Day1.Part1Single | src/day1.rs:10-13 | part 1 of one module is its fuel, and of none is 0 |
| Day1.Part2 | src/day1.rs:15-22 | as written, each fuel f plus the unclamped recursive fuel of f; `Day1.Part2AgreesOnLargeModules` and `Day1.Part2DiffersOnSmallModules` compare it with the intended total |
| Day1.Part2Fixed | src/day1.rs:15-22 | the corrected sum, each fuel plus its recursive term clamped at 0; `Day1.Part2FixedIsRecursiveTotal` proves it is the sum of recursive fuels of the positive masses |
| Day1.Part2AgreesOnLargeModules | src/day1.rs:15-22 | when every module's fuel is at least 6, part 2 as written equals the corrected total |
| Day1.Part2DiffersOnSmallModules | src/day1.rs:15-22 | for mass 12, part 2 as written gives 0 while the intended recursive total is 2 |
| Day1.Part2FixedIsRecursiveTotal | src/day1.rs:15-22 | the corrected part 2 over generated fuels is the sum of recursive fuels of the masses |
| Day2.AttemptHalts | src/day2.rs:6-12 | a successful attempt patches cells 1 and 2, runs with the panicking no-I/O bus, reaches Hlt, and answers cell 0 |
| Day2.Attempt | src/day2.rs:6-12 | the in-place attempt equals the attempt function |
| Day2.Part1 | src/day2.rs:19-22 | part 1 is the attempt with noun 12 and verb 2 |
| Day2.SearchFindsFirst | src/day2.rs:41-52 | a found answer is 100·noun + verb for the first pair in row-major order over 1..99 × 1..99 that yields 19690720; every earlier pair yields something else |
| Day2.SearchExhausted | src/day2.rs:41-52 | "no solution" means every pair yields a value other than 19690720 |
| Day2.Part2 | src/day2.rs:41-52 | the nested loops with early return equal the row-major search from (1, 1) |
| Day3.Det | src/day3.rs:163-165 | the 2x2 determinant; `Day3.DetLaws` states its row-swap, equal-row and column-of-ones laws |
| Day3.Determinant | src/day3.rs:162-173 | the determinant of the four inner determinants; `Day3.ClosedForms` reduces the denominator and numerators built from it to the cross product and the line–line formulas |
| Day3.DetLaws | src/day3.rs:162-173 | swapping the rows of `det` negates it, equal rows give 0, and a column of ones gives the difference |
| Day3.ClosedForms | src/day3.rs:135-173 | the denominator is the cross product of the two direction vectors, and the numerators are the textbook line–line formulas |
| Day3.Intersection | src/day3.rs:135-160 | `intersection` is None exactly when the segments are parallel or collinear (zero denominator) |
| Day3.HomogeneousOnLines | src/day3.rs:135-160 | the homogeneous point (numerators / denominator) lies on both lines |
| Day3.ExactIntersectionIsOnBothLines | src/day3.rs:135-160 | when the division is exact, the returned point lies on both lines |
| Day3.AxisIntersection | src/day3.rs:135-160 | a horizontal and a vertical segment meet at (vertical x, horizontal y) whether or not the segments reach it; two horizontal or two vertical segments give None |
| Day3.IntersectionExamples | src/day3.rs:175-190 | the crossing diagonals (1,1)-(4,4) and (4,1)-(1,4) meet at (2, 2), and the axis and diagonal crosses at the origin |
| Day3.ParallelExamples | src/day3.rs:191-203 | parallel, identical and collinear segment pairs have no intersection |
| Day3.Quot | src/day3.rs:159 | Rust's `/` on `isize`, rounded toward zero for either sign; `Day3.QuotExact` proves an exact multiple divides back to its factor |
| Day3.QuotExact | src/day3.rs:159 | truncating division of an exact multiple returns the factor |
| Day3.Step | src/day3.rs:24-32 | a path step succeeds exactly for U/D/L/R and moves along one axis by the path length |
| Day3.TraceFrom | src/day3.rs:20-34 | a traced wire has one segment per path |
| Day3.TraceShape | src/day3.rs:20-34 | a wire starts at the start point, each segment starts where the previous ended, and each segment is its path's step |
| Day3.TraceFails | src/day3.rs:20-34 | tracing fails exactly when some direction is unknown, naming the first unknown letter |
| Day3.TraceOne | src/day3.rs:20-34 | a single known path traces to one segment |
| Day3.BuildWire | src/day3.rs:20-35 | the in-place tracing loop equals the wire tracer from the origin |
| Day3.WiresOf | src/day3.rs:20-36 | all lines trace, one wire per line, or the result is the error of some line |
| Day3.WiresStep | src/day3.rs:20-36 | tracing the lines one at a time with early failure yields the same as tracing them all |
| Day3.TraceAll | src/day3.rs:20-36 | the wire-building loop equals the tracer over all lines |
| Day3.TracedExample | src/day3.rs:20-36 | lines R8 and U7 become the segments (0,0)-(-8,0) and (0,0)-(0,7) (R decreases x) |
| Day3.FlatMapMembers | src/day3.rs:43-65 | a record comes from the nested loops iff some iteration produced it |
| Day3.AgainstMembers | src/day3.rs:55-62 | a segment records a meeting with another wire iff it hits one of that wire's segments |
| Day3.AcrossMembers | src/day3.rs:48-63 | a segment's records come exactly from wires not equal to its own |
| Day3.AlongMembers | src/day3.rs:47-64 | a wire's records come exactly from its segments' hits on other wires |
| Day3.RecordedMembers | src/day3.rs:43-67 | the generated list holds exactly the recorded meetings |
| Day3.RecordedUnfolds | src/day3.rs:43-67 | a recorded meeting comes from segment a of wire i hitting segment b of a different wire j |
| Day3.RecordedFolds | src/day3.rs:43-67 | every such hit is recorded |
| Day3.CrossingsMembers | src/day3.rs:43-67 | x is generated iff segment a of wire i hits segment b of some unequal wire j at x's point, labelled (wire i, wire j) |
| Day3.CrossWire | src/day3.rs:55-62 | the innermost loop records exactly the hits against one other wire |
| Day3.CrossSegment | src/day3.rs:48-63 | the loop over other wires skips the wire itself and records the rest |
| Day3.CrossAlong | src/day3.rs:47-64 | the loop over a wire's segments concatenates their records |
| Day3.Gen | src/day3.rs:16-68 | the generator equals tracing every line and recording every line intersection between unequal wires |
| Day3.OneSegmentWires | src/day3.rs:43-65 | with two one-segment wires, each wire records exactly its hit on the other |
| Day3.CrossedExample | src/day3.rs:43-67 | wires R8 and U7 record one meeting in each order, whatever the intersection function answers |
| Day3.Part1 | src/day3.rs:70-77 | part 1 is the least Manhattan distance over the recorded points, attained by one of them; an empty list is the "no intersections" panic |
| Day3.OriginRecorded | src/day3.rs:16-68 | as written, wires R8 and U7 record the shared origin twice |
| Day3.Part1CountsOrigin | src/day3.rs:70-77 | so part 1 as written answers 0 for them |
| Day3.Crossing | src/day3.rs:135-160 | a corrected crossing agrees with `intersection`, lies on both segments, and is not the origin |
| Day3.CrossingIsMeeting | src/day3.rs:135-160 | for a horizontal and a vertical segment, the corrected crossing is exactly their common point other than the origin |
| Day3.CrossingSkipsOrigin | src/day3.rs:16-77 | with the corrected crossing, wires R8 and U7 record nothing, and part 1 reports "no intersections" |
| Day3.NearestCrossingIsLeast | src/day3.rs:70-77 | with the corrected crossing, part 1 is at most the distance of every real crossing of two different wires |
| Day3.NearestCrossingIsReal | src/day3.rs:70-77 | and it is the distance of some real crossing |
| Day4.Digit | src/day4.rs:56-59 | each extracted digit is a decimal digit |
| Day4.Digits | src/day4.rs:56-59 | six digits are extracted, least-significant first, by `digit_at_pos` |
| Day4.LowValueIsRemainder | src/day4.rs:56-59 | the first k digits spell num mod 10^k |
| Day4.DigitsSpellNumber | src/day4.rs:52-59 | for a six-digit number the six digits spell it back and the leading digit is non-zero |
| Day4.DigitsOfNumeral | src/day4.rs:56-59 | a number written from six digits has exactly those digits |
| Day4.IsValid | src/day4.rs:41-103 | the declarative password rule: non-decreasing digits and an adjacent pair, or a group of exactly two; `Day4.Valid` proves the scan computes it, and `Day4.ExactIsPair` and the examples state its properties |
| Day4.Valid | src/day4.rs:41-103 | the scanning loop returns true iff the digits never decrease left to right and (with `accept_groups`) some adjacent pair is equal, or (without) some maximal run has length exactly 2 |
| Day4.ExactIsPair | src/day4.rs:41-103 | a number valid under the strict rule is valid under the lax rule |
| Day4.Example123356 | src/day4.rs:107-112 | 123356 is valid under both rules |
| Day4.Example123566 | src/day4.rs:108 | 123566 is valid with groups accepted |
| Day4.Example654321 | src/day4.rs:109-116 | 654321 is rejected under both rules |
| Day4.Example654421 | src/day4.rs:110-117 | 654421 is rejected under both rules |
| Day4.Example123366 | src/day4.rs:113 | 123366 is valid under the strict rule |
| Day4.Example122233 | src/day4.rs:114 | 122233 is valid under the strict rule |
| Day4.Example122234 | src/day4.rs:115 | 122234 is invalid under the strict rule, though valid with groups accepted |
| Day4.KeptStep | src/day4.rs:16-18 | the passwords in first..=last are those in first..=last-1 plus last if it passes |
| Day4.CountKeptIsCard | src/day4.rs:16-18 | the running count equals the number of passing values in the range |
| Day4.ExactCountAtMostPairCount | src/day4.rs:15-31 | every password counted by part 2 is counted by part 1, so part 2 ≤ part 1 |
| Day4.Tally | src/day4.rs:16-18 | the counting loop equals the running count |
| Day4.CountIn | src/day4.rs:16-31 | counting equals the size of the set of valid numbers in the range |
| Day4.Part1 | src/day4.rs:15-18 | part 1 is the number of values in first..=last valid with groups accepted |
| Day4.Part2 | src/day4.rs:28-31 | part 2 is the number of values in first..=last valid under the strict rule |
| Day5.DiagnosticBusLaws | src/day5.rs:3-14 | input always gives the system id and never stops; output overwrites the last value, keeps the id, and never asks to stop |
| Day5.Answer | src/day5.rs:21-33 | field 0 of the diagnostic bus once `run` returns; `Day5.AnswerIsLastOutput` proves it is the last value output, or 0 |
| Day5.AnswerIsLastOutput | src/day5.rs:21-33 | the run returns only at Hlt, and the answer is the last value output (0 if none) |
| Day5.Diagnose | src/day5.rs:21-33 | running a copy of the program with the diagnostic bus equals the answer function |
| Day5.Part1 | src/day5.rs:21-26 | part 1 is the answer for system id 1 |
| Day5.Part2 | src/day5.rs:28-33 | part 2 is the answer for system id 5 |
| Day6.FindParen | src/day6.rs:22 | `find(')')` is None iff the line has no ')', and otherwise is the first one |
| Day6.ParseLine | src/day6.rs:22-24 | a line splits at its first ')' into orbitee and orbiter, and a line without ')' fails |
| Day6.Gen | src/day6.rs:19-27 | the fold of the lines into an orbiter → orbitee map; `Day6.GenFails`, `Day6.GenKeys` and `Day6.GenLastWins` state its failure, its keys and its values |
| Day6.GenFails | src/day6.rs:19-27 | the generator fails exactly when some line has no ')', and reports the first such line |
| Day6.GenKeys | src/day6.rs:19-27 | the map's keys are exactly the orbiters named by the lines |
| Day6.GenLastWins | src/day6.rs:19-27 | a line's orbiter maps to its orbitee unless a later line names the same orbiter |
| Day6.UpNoneStays | src/day6.rs:63-73 | once the chain of parents ends, it stays ended |
| Day6.RootedUp | src/day6.rs:63-73 | on a chain that ends after n steps, the k-th ancestor exists iff k ≤ n, and those before the root are keys |
| Day6.OrbitCount | src/day6.rs:63-73 | the orbit count is the length of the object's ancestor chain |
| Day6.RootedUnique | src/day6.rs:63-73 | the chain length is unique |
| Day6.UpFront | src/day6.rs:63-73 | an object's ancestors are its parent's ancestors shifted by one |
| Day6.UpShift | src/day6.rs:75-85 | the (j+t)-th ancestor is the t-th ancestor of the j-th |
| Day6.OrbitCountStep | src/day6.rs:63-73 | the count is 0 for an object with no parent, otherwise 1 + the parent's count |
| Day6.ChainDistinct | src/day6.rs:75-85 | on a terminating chain no object repeats |
| Day6.CountOrbits | src/day6.rs:63-73 | the counting loop returns the chain length |
| Day6.TraceOrbits | src/day6.rs:75-85 | the traced set lists the ancestors from the direct parent outward, each once, without the object itself |
| Day6.TotalOrbitsRemove | src/day6.rs:30-37 | the total over the keys is any key's count plus the total over the rest, so summation order does not matter |
| Day6.Part1 | src/day6.rs:30-37 | part 1 is the sum of orbit counts over all keys |
| Day6.IndexOf | src/day6.rs:55-60 | `get_index_of` finds the first position of an element, and None iff absent |
| Day6.FirstCommon | src/day6.rs:52-53 | the first element of SAN's chain that occurs in YOU's chain, or None iff there is none |
| Day6.NearestIsClosest | src/day6.rs:40-61 | the first common ancestor on SAN's chain minimises the combined distance |
| Day6.Transfers | src/day6.rs:40-61 | fails iff the two chains share nothing; otherwise returns the index sum at the first common ancestor, which is the minimal one |
| Day6.Part2 | src/day6.rs:40-61 | part 2 is the minimal index sum of a common ancestor of SAN and YOU, and fails iff there is none |
| Day7.PhaseBusLaws | src/day7.rs:15-34 | input gives the phase once and clears it, then always the signal; output records the value and always asks to stop |
| Day7.ThrustOf | src/day7.rs:9-43 | `calculate_thrust`: run from pc with base 0 and the phase bus, giving the bus's output and the run result; `Day7.ThrustIsOutput` proves the thrust is the one value output, or 0 |
| Day7.ThrustIsOutput | src/day7.rs:9-43 | an amplifier run outputs at most one value; the thrust is that value (0 if none) and the run stands at Hlt or at the Output |
| Day7.CalculateThrust | src/day7.rs:9-43 | running in place from pc with relative base 0 returns the thrust and run result and leaves the program in its final state |
| Day7.Chain | src/day7.rs:48-53 | one configuration: each amplifier on a fresh copy from pc 0, fed the previous thrust starting from the input; `Day7.BestChainIsMaximum` states the maximum over chains |
| Day7.BestChain | src/day7.rs:45-57 | the running maximum over configurations; `Day7.BestChainIsMaximum` proves it is at least the start and every chain, and equal to one of them |
| Day7.BestChainIsMaximum | src/day7.rs:45-57 | the best chain result is at least the start value, at least every configuration's chained thrust, and equal to the start value or one of them |
| Day7.Part1 | src/day7.rs:45-57 | part 1 chains each configuration on fresh copies from signal 0 and returns the maximum from 0 |
| Day7.FirstPassKeepsSize | src/day7.rs:74-78 | the first pass keeps one program per amplifier |
| Day7.Pass | src/day7.rs:81-89 | one loop pass: resume each amplifier without a phase on the previous thrust, ending at the first run the policy stops on; `Day7.PassAsWrittenEndsAtOnce` and `Day7.PassFixedParks` state what each policy makes of it |
| Day7.Feedback | src/day7.rs:80-92 | the `'forever` loop bounded by a pass count, raising the maximum after each complete pass; `Day7.FeedbackAtLeastBest` proves it never lowers the maximum |
| Day7.BestFeedback | src/day7.rs:59-96 | the maximum threaded through every configuration's feedback loop; `Day7.BestFeedbackAsWrittenKeepsBest` and `Day7.BestFeedbackAtLeastBest` state its value |
| Day7.PassAsWrittenEndsAtOnce | src/day7.rs:80-89 | as written, every loop pass ends at its first amplifier, because every return sets `has_halted` |
| Day7.BestFeedbackAsWrittenKeepsBest | src/day7.rs:59-96 | hence part 2 as written never raises the maximum above its start value 0 |
| Day7.ResumeAsWrittenRepeatsOutput | src/day7.rs:80-84 | resuming at the returned pc re-executes the Output and returns the same value at the same place |
| Day7.AmplifierParks | src/day7.rs:9-43 | an amplifier that does not halt stops right after an Output when resumed past it |
| Day7.PassFixedParks | src/day7.rs:80-92 | with the corrected resume policy, every amplifier is parked just past an Output after a full pass |
| Day7.FeedbackAtLeastBest | src/day7.rs:80-92 | the feedback loop's maximum never drops below its start value |
| Day7.BestFeedbackAtLeastBest | src/day7.rs:59-96 | nor does the maximum over all configurations |
| Day7.FirstPassInPlace | src/day7.rs:74-78 | the first pass over the program array equals the pass function |
| Day7.PassInPlace | src/day7.rs:81-89 | one loop pass over the array equals the pass function |
| Day7.FeedbackInPlace | src/day7.rs:80-92 | the feedback loop over the array equals the feedback function |
| Day7.ConfigSearch | src/day7.rs:62-92 | one configuration's feedback run equals its specification |
| Day7.FeedbackSearch | src/day7.rs:59-96 | the loop over configurations equals the best feedback over all of them |
| Day7.Part2 | src/day7.rs:59-96 | part 2 as written: the best feedback with resume-at-pc and stop-on-`has_halted` |
| Day7.Part2Fixed | src/day7.rs:59-96 | corrected part 2: resume past the Output and stop only at Hlt |
| Day8.Count | src/day8.rs:69-74 | `count_occurrences`; `Day8.CountIsMultiplicity` proves it is the multiplicity of the value |
| Day8.CountIsMultiplicity | src/day8.rs:69-74 | `count_occurrences` is the multiplicity of the value, so at most the length |
| Day8.DigitsOf | src/day8.rs:7-15 | keeping digit characters yields at most as many digits, each 0..9 |
| Day8.DigitsOfAppend | src/day8.rs:7-15 | digit filtering distributes over concatenation |
| Day8.DigitsOfDigits | src/day8.rs:7-15 | on a string of digits, the filter keeps every character as its value |
| Day8.Gen | src/day8.rs:5-26 | there are ⌊digits/150⌋ layers; layer i is digits[150i..150i+150], a partial last layer is dropped, and the layers concatenate to the kept prefix |
| Day8.Part1 | src/day8.rs:28-39 | part 1 is ones × twos of the first layer with the fewest zeros (ties keep the earlier layer), and 0 with no layers |
| Day8.Pixel | src/day8.rs:49-60 | a composited pixel is at most one character and never a newline |
| Day8.PixelMeaning | src/day8.rs:49-60 | the pixel is empty iff transparent (2) in every layer, shows ' ' or '█' for the first opaque layer, and is an "unknown pixel" error when a value outside 0..2 comes first |
| Day8.RowShape | src/day8.rs:48-61 | a row has at most 25 characters and no newline |
| Day8.ScreenLines | src/day8.rs:42-67 | the picture starts and ends with a newline and has one more newline than rows |
| Day8.ScreenLength | src/day8.rs:42-67 | the picture has at most 1 + 26 characters per row |
| Day8.RowErrStays | src/day8.rs:48-61 | once a row hits an unknown pixel, later pixels do not change the error |
| Day8.ScreenErrStays | src/day8.rs:47-64 | once a row fails, later rows do not change the error |
| Day8.DrawPixel | src/day8.rs:49-60 | the layer loop for one pixel equals the pixel function |
| Day8.Part2 | src/day8.rs:41-67 | the nested loops equal the 6-row composited picture |
| Day9.BoostBusLaws | src/day9.rs:19-30 | input always gives the held value; output replaces it and always asks to stop |
| Day9.KeycodeOf | src/day9.rs:18-35 | the BOOST bus's value once `run` returns; `Day9.KeycodeIsFirstOutput` proves it is the one value output, or the input |
| Day9.KeycodeIsFirstOutput | src/day9.rs:18-35 | the run outputs at most one value, and the keycode is that value, or the input if there was none |
| Day9.Keycode | src/day9.rs:18-35 | running a copy from (0, 0) with the BOOST bus equals the keycode function |
| Day9.Part1 | src/day9.rs:8-11 | part 1 is the keycode for input 1 |
| Day9.Part2 | src/day9.rs:13-16 | part 2 is the keycode for input 2 |
| Day11.TurnLeft | src/day11.rs:15-22 | a quarter turn left; `Day11.TurnLaws` proves it inverse to the right turn with period four |
| Day11.TurnRight | src/day11.rs:24-31 | a quarter turn right; `Day11.TurnLaws` states the same |
| Day11.TurnLaws | src/day11.rs:14-31 | left and right are inverse quarter turns; four of either, or two lefts against two rights, agree |
| Day11.Walk | src/day11.rs:33-40 | one unit step, up being +y; `Day11.WalkLaws` proves it moves one unit and a half turn walks back |
| Day11.WalkLaws | src/day11.rs:33-40 | a walk moves exactly one unit, and walking back after a half turn returns to the start |
| Day11.DefaultRobot | src/day11.rs:50-59 | nothing painted, at the origin, facing up, about to paint; `Day11.PaintedCountIsPaintedCells` states part 1 from it |
| Day11.RobotInput | src/day11.rs:62-64 | 1 on a white panel, 0 otherwise (unpainted is black); `Day11.RobotBusLaws` states it |
| Day11.RobotStep | src/day11.rs:66-80 | the first output of a pair paints, the second turns and steps; `Day11.RobotBusLaws` and `Day11.ReplayPaints` state its effect |
| Day11.RobotBusLaws | src/day11.rs:43-81 | input is 1 on a white panel and 0 otherwise and never stops; outputs alternate: the first paints the current panel (white iff 1) in place, the second turns (0 left, else right) and steps without painting; output never asks to stop |
| Day11.ReplayPaints | src/day11.rs:66-80 | the painted panels after a sequence of outputs are the earlier ones plus those painted by the painting outputs |
| Day11.PaintedCountIsPaintedCells | src/day11.rs:88-93 | the run from the default robot returns only at Hlt, and part 1 counts the distinct panels painted by its outputs |
| Day11.Part1 | src/day11.rs:88-93 | part 1 runs a copy of the program with the default robot and returns the number of painted panels |
| Day12.Energy | src/day12.rs:98-101 | energy is potential × kinetic, so it is zero iff position or velocity is zero |
| Day12.Moved | src/day12.rs:92-96 | `apply_velocity` adds velocity to position and keeps velocity |
| Day12.Compare | src/day12.rs:119-128 | `compare`; `Day12.CompareLaws` proves it the sign of second − first, antisymmetric |
| Day12.CompareLaws | src/day12.rs:119-128 | `compare(a, b)` is -1, 0 or 1 as b <, =, > a, and is antisymmetric |
| Day12.Attraction | src/day12.rs:133-143 | the velocity change one moon gets from another: none at the same position, else one unit toward it per axis; `Day12.AttractionOpposite` and `Day12.TotalPullOfFour` state it |
| Day12.AttractionOpposite | src/day12.rs:130-144 | the pull of b on a is the negated pull of a on b |
| Day12.Gravity | src/day12.rs:130-144 | gravity changes only velocities |
| Day12.Drift | src/day12.rs:34-39 | the velocity pass changes only positions |
| Day12.Step | src/day12.rs:36-39 | one iteration of the simulation loop, gravity then velocity; `Day12.StepExample` checks the test's step and `Day12.SimulateConservesMomentum` proves momentum kept |
| Day12.Simulate | src/day12.rs:34-39 | simulation keeps the number of moons |
| Day12.MomentumOfVelocities | src/day12.rs:130-144 | momentum depends on velocities only |
| Day12.TotalPullOfFour | src/day12.rs:130-144 | a moon's velocity change is the sum of its pulls toward the four moons, skipping those at its own position |
| Day12.MomentumOfFour | src/day12.rs:130-144 | the momentum of four moons is the sum of their velocities |
| Day12.GravityConservesMomentum | src/day12.rs:130-144 | gravity between four moons conserves total momentum |
| Day12.SimulateConservesMomentum | src/day12.rs:34-39 | so does any number of steps |
| Day12.PullMoon | src/day12.rs:132-143 | the inner loop updates only moon i, from the snapshot |
| Day12.ApplyGravity | src/day12.rs:130-144 | the in-place gravity step equals gravity on the snapshot of pre-step positions |
| Day12.ApplyVelocity | src/day12.rs:92-96 | the in-place velocity step moves only moon i |
| Day12.ApplyVelocities | src/day12.rs:38 | moving every moon in place equals the velocity pass |
| Day12.Part1 | src/day12.rs:33-42 | part 1 is the total energy after 1000 steps |
| Day12.StepExample | src/day12.rs:184-217 | one step of the example system at rest yields the listed positions and velocities |
| Day12.GcdOf | src/day12.rs:104-113 | Euclid's algorithm; `Day12.GcdIsGreatestCommonDivisor` proves it the greatest common divisor |
| Day12.DividesRemainder | src/day12.rs:104-113 | for b > 0, d divides a iff it divides a mod b, which is Euclid's invariant |
| Day12.GcdIsGreatestCommonDivisor | src/day12.rs:104-113 | the gcd divides both numbers, every common divisor divides it, and it is 0 only for (0, 0) |
| Day12.Gcd | src/day12.rs:104-113 | Euclid's loop computes that gcd |
| Day12.Lcm | src/day12.rs:115-117 | `a·b / gcd(a, b)` times the gcd is a·b, and both a and b divide it |

## Left out

- **IoBus mutation:** the `&mut` bus becomes bus-state threading (`IoBus<S>` of functions); aliasing of the bus with other state does not arise in the crate.
- **Non-termination of `run`:** `run` loops forever on some programs. `Exec` is bounded by `fuel`, and running out is reported as `Unfinished`, not as looping.
- **Unbounded feedback loop:** day 7's `'forever` loop is bounded by a `passes` count for the same reason.
- **Panics and `debug_assert`s:** these become `Fault`/failure values, not process aborts.
  - The debug-asserted negative jump target, relative base or LT/EQ address becomes a fault in the model, not undefined release-mode behaviour.
  - `Intcode.Read` reports a negative Relative address as a fault; in release mode the Rust cast would wrap.
- **Machine integer widths:** `isize`, `i64`, `i32`, `u32`, `u64` and `usize` are unbounded; overflow and wrap-around are not modelled.
- **Input parsing:** the `gen` functions of days 1, 2, 4, 5, 7, 9, 11 and 12 only split text and call `str::parse`. Programs, masses, ranges and moons are taken already parsed. Day 1's `Gen` keeps only the `calculate_fuel` mapping.
- **Day 3 length parsing:** day 3's per-path length parsing is also left out; paths are given as (letter, length) pairs.
- **Day 6 and day 8 generators:** these are modelled.
- **Day 10:** the whole day is left out. It uses floating point, `atan2` and a parallel maximum.
- **Day 12:** `part2_impl1` (threads and channels) and `cycle` (an unbounded search) are left out.
- **Rayon variants:** day 2 `part2_impl1` and day 4 `part1_impl2`/`part2_impl2` are left out. They differ from the modelled sequential versions only by parallelism.
- **Day 3 `part2_impl1`:** the step counter is not part of this model.
- **Day 11 `part2_impl1`:** the grid rendering is output formatting only and is not part of this model.
- **Day 7 permutations:** `itertools::permutations` is not modelled; configurations are given as a sequence of phase orders.
- **Day 6 HashMap order:** iteration order is not modelled. Part 1's sum is stated over the key set, and `TotalOrbitsRemove` shows the order cannot matter.
- Day6.CountOrbits: requires that the chain ends (`Rooted`). A cyclic map makes the Rust loop run forever.
- Day6.TraceOrbits: the same `Rooted` requirement applies.
- Day6.Part1: the same `Rooted` requirement applies.
- Day6.Transfers: the same `Rooted` requirement applies.
- Day6.Part2: the same `Rooted` requirement applies.
- Day4.Valid: requires a six-digit number; this is the function's `debug_assert` made a precondition.
- Day4.Part1: requires the range to lie within the six-digit numbers or be empty, for the same reason.
- Day4.Part2: the same six-digit range requirement applies.
- Day4.Tally: the same six-digit range requirement applies.
- Day4.CountIn: the same six-digit range requirement applies.
- Day8.Part2: requires every layer to hold at least 150 pixels, which `gen` guarantees. Shorter hand-made layers would panic on indexing in Rust.
- Day8.DrawPixel: requires every layer to contain the pixel's index.
- **Day 8 sentinel:** part 1's `usize::MAX` sentinel is modelled by the "no layers gives 0" case, which is what the sentinel yields.
- Day12.Lcm: requires a or b to be non-zero; `lcm(0, 0)` divides by zero in Rust.
- Day12.Part1: requires exactly four moons, which the Rust array type `[CelestialObject; 4]` fixes.
- Day12.GravityConservesMomentum: is stated for the four moons of the Rust type.
- **Day 12 moons:** `CelestialObject` is a value stored in an `array`, updated in place.
- Day3.Intersection: `pl_y` is the same expression as `pl_x`, so the single denominator test covers both.
- Day7.CalculateThrust: the relative base is reset to 0 on every call, as in the source.

**Where the code and its documentation differ, the model follows the code:**
- A returning Input or Output leaves pc at that instruction. The run does not advance past it.
- ModRelBas assigns the relative base. The doc comments say it adds.
- LT/EQ write to the address given by the third operand's value, and never grow memory.

## Findings

| source | as written | input that shows it | evidently intended | confidence | as-written member | corrected member |
|---|---|---|---|---|---|---|
| src/day7.rs:80-93 | every return of `run` sets `has_halted`, and the resume starts at the returned pc, so the loop re-executes the Output, sees `has_halted` on its first resume, and breaks before `max` is ever updated: part 2 is always 0 | the feedback program of the test at src/day7.rs:122-126, expected 139629729 | resume after the Output and leave the loop only when an amplifier reaches Hlt | not executed | Day7.BestFeedbackAsWrittenKeepsBest | Day7.PassFixedParks |
| src/day1.rs:15-22 | part 2 adds the unclamped `calculate_recursive_fuel(f)` of each module's fuel f, so for fuel 2 it adds 2 + (-2) = 0 | a module of mass 12 (fuel 2): part 2 gives 0 | each module's recursive fuel, `calculate_recursive_fuel(mass)`, i.e. f plus the clamped recursive term | not executed | Day1.Part2DiffersOnSmallModules | Day1.Part2FixedIsRecursiveTotal |
| src/day3.rs:135-160 | `intersection` intersects the infinite lines, not the segments, so wires whose first segments are perpendicular record the shared origin (and lines may also meet at far-off points), and part 1 answers 0 for them | wires R8 and U7; also the puzzle's R8,U5,L5,D3 / U7,R6,D4,L4 | record only points on both segments other than the origin | not executed | Day3.Part1CountsOrigin | Day3.NearestCrossingIsLeast |
