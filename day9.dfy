/** Day 9 (src/day9.rs): the BOOST program is run with one input value; the
    keycode is the first value it outputs. */
module Day9 {
  import opened Wrappers
  import opened Intcode
  import opened IntcodeRuns

  /** `BoostIoBus`: one held value, handed to every Input and replaced by
      the first output. */
  datatype BoostIoBus = BoostIoBus(held: int)

  function BoostInput(b: BoostIoBus): InputReply<BoostIoBus> {
    Given(b.held, b)
  }

  function BoostOutput(b: BoostIoBus, value: int): OutputReply<BoostIoBus> {
    StopRequested(BoostIoBus(value))
  }

  function BoostIo(): IoBus<BoostIoBus> {
    IoBus(BoostInput, BoostOutput)
  }

  /** The value the bus holds. */
  function Held(b: BoostIoBus): int {
    b.held
  }

  /** The bus always has input, stops the run at every output, keeps its
      value on input and replaces it on output. */
  lemma BoostBusLaws()
    ensures AlwaysGives(BoostIo()) && AlwaysStops(BoostIo())
    ensures InputKeeps(BoostIo(), Held)
    ensures OutputApplies(BoostIo(), Held, Latest)
  {
  }

  /** The keycode: the held value once `run` returns. */
  function KeycodeOf(program: seq<int>, input: int, fuel: nat): Result<int, Failure> {
    match Exec(program, 0, 0, BoostIoBus(input), BoostIo(), fuel)
    case Returned(_, _, b) => Ok(b.held)
    case Crashed(f) => Err(Panicked(f))
    case OutOfFuel(_, _, _, _) => Err(Unfinished)
  }

  /** The run emits at most one value, and the keycode is that value, or the
      input itself if the program halts without output. */
  lemma KeycodeIsFirstOutput(program: seq<int>, input: int, fuel: nat)
    ensures |Emitted(program, 0, 0, BoostIoBus(input), BoostIo(), fuel)| <= 1
    ensures var out := Emitted(program, 0, 0, BoostIoBus(input), BoostIo(), fuel);
      KeycodeOf(program, input, fuel).Ok? ==>
        KeycodeOf(program, input, fuel).value == if |out| == 0 then input else out[0]
  {
    var bus := BoostIoBus(input);
    BoostBusLaws();
    EmitsAtMostOne(program, 0, 0, bus, BoostIo(), fuel);
    if KeycodeOf(program, input, fuel).Ok? {
      ExecReplays(program, 0, 0, bus, BoostIo(), fuel, Held, Latest);
      ReplayLatest(input, Emitted(program, 0, 0, bus, BoostIo(), fuel));
    }
  }

  /** `keycode`: run the program from (0, 0) with `input` on the bus and
      answer the value the bus holds. */
  method Keycode(program: seq<int>, input: int, fuel: nat) returns (r: Result<int, Failure>)
    ensures r == KeycodeOf(program, input, fuel)
  {
    var memory := new Memory(program);
    var outcome := Run(memory, 0, 0, BoostIoBus(input), BoostIo(), fuel);
    match outcome
    case Returned(_, _, b) => r := Ok(b.held);
    case Crashed(f) => r := Err(Panicked(f));
    case OutOfFuel(_, _, _, _) => r := Err(Unfinished);
  }

  /** `part1_impl1`: test mode, input 1. */
  method Part1(program: seq<int>, fuel: nat) returns (r: Result<int, Failure>)
    ensures r == KeycodeOf(program, 1, fuel)
  {
    r := Keycode(program, 1, fuel);
  }

  /** `part2_impl1`: sensor boost mode, input 2. */
  method Part2(program: seq<int>, fuel: nat) returns (r: Result<int, Failure>)
    ensures r == KeycodeOf(program, 2, fuel)
  {
    r := Keycode(program, 2, fuel);
  }
}
