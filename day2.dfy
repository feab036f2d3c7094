/** Day 2 (src/day2.rs): the gravity-assist program is patched with a noun
    and a verb, run without I/O, and read back at cell 0; part 2 searches
    the nouns and verbs 1..99 for the one that yields GOAL. */
module Day2 {
  import opened Wrappers
  import opened Intcode
  import opened IntcodeRuns

  /** The output part 2 looks for. */
  const GOAL: int := 19690720

  /** Why an answer of day 2 is missing: the program has no cell 1 or 2 to
      patch, the run failed, or no noun and verb give GOAL. */
  datatype Day2Failure = MissingCell(index: nat) | RunFailed(failure: Failure) | NoSolution

  /** The result of `attempt`: cell 0 once the patched program has run. */
  function AttemptResult(program: seq<int>, noun: int, verb: int, fuel: nat): Result<int, Day2Failure> {
    if |program| < 2 then Err(MissingCell(1))
    else if |program| < 3 then Err(MissingCell(2))
    else
      var patched := program[1 := noun][2 := verb];
      match Exec(patched, 0, 0, NoIoDefault(), NoIo(), fuel)
      case Returned(_, m, _) =>
        ExecNeverShrinks(patched, 0, 0, NoIoDefault(), NoIo(), fuel);
        Ok(m[0])
      case Crashed(f) => Err(RunFailed(Panicked(f)))
      case OutOfFuel(_, _, _, _) => Err(RunFailed(Unfinished))
  }

  /** `attempt` runs with a bus that panics on any I/O: when it answers, the
      patched program returned at a Hlt, having output nothing, and cell 0
      is read from the memory the run left. */
  lemma AttemptHalts(program: seq<int>, noun: int, verb: int, fuel: nat)
    requires AttemptResult(program, noun, verb, fuel).Ok?
    ensures |program| >= 3
    ensures var o := Exec(program[1 := noun][2 := verb], 0, 0, NoIoDefault(), NoIo(), fuel);
      && o.Returned? && |o.mem| > 0
      && Decode(o.mem, o.result.pc) == Ok(Hlt)
      && AttemptResult(program, noun, verb, fuel).value == o.mem[0]
  {
    var patched := program[1 := noun][2 := verb];
    var o := Exec(patched, 0, 0, NoIoDefault(), NoIo(), fuel);
    ReturnedAtStop(patched, 0, 0, NoIoDefault(), NoIo(), fuel);
    ExecReplays(patched, 0, 0, NoIoDefault(), NoIo(), fuel, Panics, Keep);
    KeepReplays(true, Emitted(patched, 0, 0, NoIoDefault(), NoIo(), fuel));
  }

  /** Whether the no-I/O bus panics. */
  function Panics(b: NoIoBusImpl): bool {
    b.panic
  }

  /** Output leaves the flag alone. */
  function Keep(flag: bool, value: int): bool {
    flag
  }

  lemma {:induction false} KeepReplays(flag: bool, values: seq<int>)
    ensures Replay(Keep, flag, values) == flag
    decreases |values|
  {
    if |values| > 0 {
      KeepReplays(flag, values[1..]);
    }
  }

  /** `attempt`: write noun and verb into cells 1 and 2 of a copy, run it
      from (0, 0) without I/O, and read cell 0. */
  method Attempt(program: seq<int>, noun: int, verb: int, fuel: nat) returns (r: Result<int, Day2Failure>)
    ensures r == AttemptResult(program, noun, verb, fuel)
  {
    if |program| < 2 {
      return Err(MissingCell(1));
    }
    if |program| < 3 {
      return Err(MissingCell(2));
    }
    var memory := new Memory(program);
    memory.cells := memory.cells[1 := noun];
    memory.cells := memory.cells[2 := verb];
    var outcome := Run(memory, 0, 0, NoIoDefault(), NoIo(), fuel);
    match outcome
    case Returned(_, _, _) =>
      ExecNeverShrinks(program[1 := noun][2 := verb], 0, 0, NoIoDefault(), NoIo(), fuel);
      r := Ok(memory.cells[0]);
    case Crashed(f) => r := Err(RunFailed(Panicked(f)));
    case OutOfFuel(_, _, _, _) => r := Err(RunFailed(Unfinished));
  }

  /** `part1_impl1`: restore the "1202 program alarm" state. */
  method Part1(program: seq<int>, fuel: nat) returns (r: Result<int, Day2Failure>)
    ensures r == AttemptResult(program, 12, 2, fuel)
  {
    r := Attempt(program, 12, 2, fuel);
  }

  /** The sequential search from (noun, verb) on, in row-major order over
      1..99 x 1..99: the first pair whose attempt gives GOAL answers
      100 * noun + verb, a failed attempt aborts the search. */
  function Search(program: seq<int>, fuel: nat, noun: int, verb: int): Result<int, Day2Failure>
    requires 1 <= noun <= 100 && 1 <= verb <= 100
    decreases 100 - noun, 100 - verb
  {
    if noun == 100 then Err(NoSolution)
    else if verb == 100 then Search(program, fuel, noun + 1, 1)
    else
      match AttemptResult(program, noun, verb, fuel)
      case Err(e) => Err(e)
      case Ok(v) => if v == GOAL then Ok(100 * noun + verb) else Search(program, fuel, noun, verb + 1)
  }

  /** (n, v) comes before (noun, verb) in the search order. */
  predicate Before(n: int, v: int, noun: int, verb: int) {
    n < noun || (n == noun && v < verb)
  }

  /** The attempt with noun n and verb v succeeded and missed GOAL. */
  predicate Missed(program: seq<int>, fuel: nat, n: int, v: int) {
    && AttemptResult(program, n, v, fuel).Ok?
    && AttemptResult(program, n, v, fuel).value != GOAL
  }

  /** A search that answers has found the first pair, in row-major order,
      whose attempt gives GOAL; the answer encodes that pair. */
  lemma {:induction false} SearchFindsFirst(program: seq<int>, fuel: nat, noun: int, verb: int)
    requires 1 <= noun <= 100 && 1 <= verb <= 100
    requires Search(program, fuel, noun, verb).Ok?
    ensures var a := Search(program, fuel, noun, verb).value; var n := a / 100; var v := a % 100;
      && 1 <= n <= 99 && 1 <= v <= 99 && !Before(n, v, noun, verb)
      && AttemptResult(program, n, v, fuel) == Ok(GOAL)
      && forall n', v' | 1 <= n' <= 99 && 1 <= v' <= 99 && !Before(n', v', noun, verb) && Before(n', v', n, v) ::
           Missed(program, fuel, n', v')
    decreases 100 - noun, 100 - verb
  {
    if verb == 100 {
      SearchFindsFirst(program, fuel, noun + 1, 1);
    } else {
      var res := AttemptResult(program, noun, verb, fuel);
      if res.value != GOAL {
        SearchFindsFirst(program, fuel, noun, verb + 1);
      } else {
        assert (100 * noun + verb) / 100 == noun && (100 * noun + verb) % 100 == verb;
      }
    }
  }

  /** A search that finds nothing has attempted every remaining pair
      successfully without meeting GOAL. */
  lemma {:induction false} SearchExhausted(program: seq<int>, fuel: nat, noun: int, verb: int)
    requires 1 <= noun <= 100 && 1 <= verb <= 100
    requires Search(program, fuel, noun, verb) == Err(NoSolution)
    ensures forall n, v | 1 <= n <= 99 && 1 <= v <= 99 && !Before(n, v, noun, verb) ::
      Missed(program, fuel, n, v)
    decreases 100 - noun, 100 - verb
  {
    if noun < 100 {
      if verb == 100 {
        SearchExhausted(program, fuel, noun + 1, 1);
      } else {
        assert AttemptResult(program, noun, verb, fuel).Ok?;
        assert Missed(program, fuel, noun, verb);
        SearchExhausted(program, fuel, noun, verb + 1);
      }
    }
  }

  /** `part2_impl2`: the nested loops over nouns and verbs with an early
      return on the first pair that gives GOAL. */
  method Part2(program: seq<int>, fuel: nat) returns (r: Result<int, Day2Failure>)
    ensures r == Search(program, fuel, 1, 1)
  {
    var noun := 1;
    while noun <= 99
      invariant 1 <= noun <= 100
      invariant Search(program, fuel, noun, 1) == Search(program, fuel, 1, 1)
    {
      var verb := 1;
      while verb <= 99
        invariant 1 <= verb <= 100
        invariant Search(program, fuel, noun, verb) == Search(program, fuel, 1, 1)
      {
        var res := Attempt(program, noun, verb, fuel);
        if res.Err? {
          return Err(res.error);
        }
        if res.value == GOAL {
          return Ok(100 * noun + verb);
        }
        verb := verb + 1;
      }
      noun := noun + 1;
    }
    r := Err(NoSolution);
  }
}
