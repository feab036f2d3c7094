/** Day 5 (src/day5.rs): the diagnostic program is run once with a fixed
    system ID on its input; the answer is the last value it outputs. */
module Day5 {
  import opened Wrappers
  import opened Intcode
  import opened IntcodeRuns

  /** `DiagnosticIoBus(last, input)`: field 0 keeps the most recent output,
      field 1 is the system ID handed to every Input. */
  datatype DiagnosticIoBus = DiagnosticIoBus(last: int, input: int)

  function DiagnosticInput(b: DiagnosticIoBus): InputReply<DiagnosticIoBus> {
    Given(b.input, b)
  }

  function DiagnosticOutput(b: DiagnosticIoBus, value: int): OutputReply<DiagnosticIoBus> {
    Proceed(b.(last := value))
  }

  function DiagnosticIo(): IoBus<DiagnosticIoBus> {
    IoBus(DiagnosticInput, DiagnosticOutput)
  }

  /** What field 0 of the bus holds. */
  function LastOutput(b: DiagnosticIoBus): int {
    b.last
  }

  /** The diagnostic bus always has input, never stops a run, keeps the
      system ID, and overwrites field 0 with each output. */
  lemma DiagnosticBusLaws()
    ensures AlwaysGives(DiagnosticIo()) && NeverStops(DiagnosticIo())
    ensures InputKeeps(DiagnosticIo(), LastOutput)
    ensures OutputApplies(DiagnosticIo(), LastOutput, Latest)
    ensures forall b: DiagnosticIoBus, v: int :: DiagnosticOutput(b, v).next.input == b.input
  {
  }

  /** The answer of one part: field 0 of the bus once `run` returns. */
  function Answer(program: seq<int>, systemId: int, fuel: nat): Result<int, Failure> {
    match Exec(program, 0, 0, DiagnosticIoBus(0, systemId), DiagnosticIo(), fuel)
    case Returned(_, _, b) => Ok(b.last)
    case Crashed(f) => Err(Panicked(f))
    case OutOfFuel(_, _, _, _) => Err(Unfinished)
  }

  /** Since the bus never suspends a run, `run` returns only at a Hlt, and
      the answer is the last value output, or 0 if there was none. */
  lemma AnswerIsLastOutput(program: seq<int>, systemId: int, fuel: nat)
    ensures var o := Exec(program, 0, 0, DiagnosticIoBus(0, systemId), DiagnosticIo(), fuel);
      o.Returned? ==> Decode(o.mem, o.result.pc) == Ok(Hlt)
    ensures var out := Emitted(program, 0, 0, DiagnosticIoBus(0, systemId), DiagnosticIo(), fuel);
      Answer(program, systemId, fuel).Ok? ==>
        Answer(program, systemId, fuel).value == if |out| == 0 then 0 else out[|out| - 1]
  {
    var bus := DiagnosticIoBus(0, systemId);
    var o := Exec(program, 0, 0, bus, DiagnosticIo(), fuel);
    if o.Returned? {
      DiagnosticBusLaws();
      ReturnedAtStop(program, 0, 0, bus, DiagnosticIo(), fuel);
      ExecReplays(program, 0, 0, bus, DiagnosticIo(), fuel, LastOutput, Latest);
      ReplayLatest(0, Emitted(program, 0, 0, bus, DiagnosticIo(), fuel));
    }
  }

  /** Run a copy of `program` from (0, 0) with the system ID on the bus. */
  method Diagnose(program: seq<int>, systemId: int, fuel: nat) returns (r: Result<int, Failure>)
    ensures r == Answer(program, systemId, fuel)
  {
    var memory := new Memory(program);
    var bus := DiagnosticIoBus(0, systemId);
    var outcome := Run(memory, 0, 0, bus, DiagnosticIo(), fuel);
    match outcome
    case Returned(_, _, b) => r := Ok(b.last);
    case Crashed(f) => r := Err(Panicked(f));
    case OutOfFuel(_, _, _, _) => r := Err(Unfinished);
  }

  /** `part1_impl1`: the air-conditioner unit, system ID 1. */
  method Part1(program: seq<int>, fuel: nat) returns (r: Result<int, Failure>)
    ensures r == Answer(program, 1, fuel)
  {
    r := Diagnose(program, 1, fuel);
  }

  /** `part2_impl1`: the thermal radiator controller, system ID 5. */
  method Part2(program: seq<int>, fuel: nat) returns (r: Result<int, Failure>)
    ensures r == Answer(program, 5, fuel)
  {
    r := Diagnose(program, 5, fuel);
  }
}
