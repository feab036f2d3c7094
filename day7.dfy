/** Day 7 (src/day7.rs): five amplifiers run copies of one Intcode program,
    each reading a phase setting and then the previous amplifier's output.
    Part 1 chains them once; part 2 wires them in a feedback loop.  The
    phase orders are given (the source enumerates permutations). */
module Day7 {
  import opened Wrappers
  import opened Intcode
  import opened IntcodeRuns

  function Max(a: int, b: int): int {
    if a < b then b else a
  }

  /** `PhaseIoBus`: the phase setting still to hand out, the input value, and
      the last output. */
  datatype PhaseIoBus = PhaseIoBus(phase: Option<int>, inputValue: int, output: int)

  /** The phase first (once), the input value from then on. */
  function PhaseInput(b: PhaseIoBus): InputReply<PhaseIoBus> {
    match b.phase
    case Some(p) => Given(p, b.(phase := None))
    case None => Given(b.inputValue, b)
  }

  /** Record the value and stop the run. */
  function PhaseOutput(b: PhaseIoBus, value: int): OutputReply<PhaseIoBus> {
    StopRequested(b.(output := value))
  }

  function PhaseIo(): IoBus<PhaseIoBus> {
    IoBus(PhaseInput, PhaseOutput)
  }

  /** The output field of the bus. */
  function Recorded(b: PhaseIoBus): int {
    b.output
  }

  /** The bus always has input and stops the run at every output; the phase
      is handed out once, after which every Input gets the input value; an
      Input leaves the recorded output alone and an Output replaces it. */
  lemma PhaseBusLaws()
    ensures AlwaysGives(PhaseIo()) && AlwaysStops(PhaseIo())
    ensures InputKeeps(PhaseIo(), Recorded) && OutputApplies(PhaseIo(), Recorded, Latest)
    ensures forall b: PhaseIoBus :: PhaseInput(b).value == (if b.phase.Some? then b.phase.value else b.inputValue)
    ensures forall b: PhaseIoBus :: PhaseInput(b).next.phase.None? && PhaseInput(b).next.inputValue == b.inputValue
  {
  }

  /** What one call of `calculate_thrust` yields: the recorded output, the
      registers `run` returned, and the memory it left behind. */
  datatype Thrust = Thrust(value: int, result: RunResult, mem: seq<int>)

  /** `calculate_thrust`: run from `pc` with the relative base reset to 0. */
  function ThrustOf(program: seq<int>, pc: nat, phase: Option<int>, input: int, fuel: nat): Result<Thrust, Failure> {
    match Exec(program, pc, 0, PhaseIoBus(phase, input, 0), PhaseIo(), fuel)
    case Returned(res, m, b) => Ok(Thrust(b.output, res, m))
    case Crashed(f) => Err(Panicked(f))
    case OutOfFuel(_, _, _, _) => Err(Unfinished)
  }

  /** An amplifier run emits at most one value; the thrust is that value (0
      if there was none), and the run has halted, at a Hlt or at the Output
      it stopped after. */
  lemma ThrustIsOutput(program: seq<int>, pc: nat, phase: Option<int>, input: int, fuel: nat)
    ensures |Emitted(program, pc, 0, PhaseIoBus(phase, input, 0), PhaseIo(), fuel)| <= 1
    ensures var t := ThrustOf(program, pc, phase, input, fuel);
      var out := Emitted(program, pc, 0, PhaseIoBus(phase, input, 0), PhaseIo(), fuel);
      t.Ok? ==>
        && t.value.value == (if |out| == 0 then 0 else out[0])
        && t.value.result.hasHalted
        && Decode(t.value.mem, t.value.result.pc).Ok?
        && (Decode(t.value.mem, t.value.result.pc).value.Hlt? || Decode(t.value.mem, t.value.result.pc).value.Output?)
  {
    var bus := PhaseIoBus(phase, input, 0);
    PhaseBusLaws();
    EmitsAtMostOne(program, pc, 0, bus, PhaseIo(), fuel);
    if ThrustOf(program, pc, phase, input, fuel).Ok? {
      ReturnedAtStop(program, pc, 0, bus, PhaseIo(), fuel);
      ExecReplays(program, pc, 0, bus, PhaseIo(), fuel, Recorded, Latest);
      ReplayLatest(0, Emitted(program, pc, 0, bus, PhaseIo(), fuel));
    }
  }

  /** `calculate_thrust`, mutating `program` in place. */
  method CalculateThrust(program: Memory, pc: nat, phase: Option<int>, input: int, fuel: nat)
    returns (r: Result<(int, RunResult), Failure>)
    modifies program
    ensures var t := ThrustOf(old(program.cells), pc, phase, input, fuel);
      && (t.Ok? ==> r == Ok((t.value.value, t.value.result)) && program.cells == t.value.mem)
      && (t.Err? ==> r == Err(t.error))
  {
    var outcome := Run(program, pc, 0, PhaseIoBus(phase, input, 0), PhaseIo(), fuel);
    match outcome
    case Returned(res, _, b) => r := Ok((b.output, res));
    case Crashed(f) => r := Err(Panicked(f));
    case OutOfFuel(_, _, _, _) => r := Err(Unfinished);
  }

  // ---------------------------------------------------------------------------
  // Part 1: a single chain
  // ---------------------------------------------------------------------------

  /** The amplifiers with phases `config`, each on a fresh copy from pc 0,
      the first fed `input` and each later one the previous thrust. */
  function Chain(program: seq<int>, config: seq<int>, input: int, fuel: nat): Result<int, Failure>
    decreases |config|
  {
    if |config| == 0 then Ok(input)
    else
      var t :- ThrustOf(program, 0, Some(config[0]), input, fuel);
      Chain(program, config[1..], t.value, fuel)
  }

  /** The best chain over `configs`, starting from `best`. */
  function BestChain(program: seq<int>, configs: seq<seq<int>>, best: int, fuel: nat): Result<int, Failure>
    decreases |configs|
  {
    if |configs| == 0 then Ok(best)
    else
      var c :- Chain(program, configs[0], 0, fuel);
      BestChain(program, configs[1..], Max(c, best), fuel)
  }

  /** The answer of part 1 is the largest thrust over all the phase orders,
      never less than the starting value, and is that value or one of the
      chains' thrusts. */
  lemma {:induction false} BestChainIsMaximum(program: seq<int>, configs: seq<seq<int>>, best: int, fuel: nat)
    requires BestChain(program, configs, best, fuel).Ok?
    ensures var r := BestChain(program, configs, best, fuel).value;
      && r >= best
      && (forall i | 0 <= i < |configs| :: Chain(program, configs[i], 0, fuel).Ok? && r >= Chain(program, configs[i], 0, fuel).value)
      && (r == best || exists i | 0 <= i < |configs| :: r == Chain(program, configs[i], 0, fuel).value)
    decreases |configs|
  {
    if |configs| > 0 {
      var c := Chain(program, configs[0], 0, fuel).value;
      BestChainIsMaximum(program, configs[1..], Max(c, best), fuel);
      var r := BestChain(program, configs, best, fuel).value;
      forall i | 0 <= i < |configs|
        ensures Chain(program, configs[i], 0, fuel).Ok? && r >= Chain(program, configs[i], 0, fuel).value
      {
        if i > 0 {
          assert configs[i] == configs[1..][i - 1];
        }
      }
      if r != best && r != c {
        var j :| 0 <= j < |configs[1..]| && r == Chain(program, configs[1..][j], 0, fuel).value;
        assert configs[1..][j] == configs[j + 1];
      }
    }
  }

  /** `part1_impl1` over the given phase orders. */
  method Part1(program: seq<int>, configs: seq<seq<int>>, fuel: nat) returns (r: Result<int, Failure>)
    ensures r == BestChain(program, configs, 0, fuel)
  {
    var max := 0;
    for k := 0 to |configs|
      invariant BestChain(program, configs[k..], max, fuel) == BestChain(program, configs, 0, fuel)
    {
      var config := configs[k];
      var result := 0;
      for j := 0 to |config|
        invariant Chain(program, config[j..], result, fuel) == Chain(program, config, 0, fuel)
      {
        var memory := new Memory(program);
        var t := CalculateThrust(memory, 0, Some(config[j]), result, fuel);
        if t.Err? {
          assert config[j..][1..] == config[j + 1..];
          return Err(t.error);
        }
        assert config[j..][1..] == config[j + 1..];
        result := t.value.0;
      }
      assert configs[k..][1..] == configs[k + 1..];
      max := Max(result, max);
    }
    r := Ok(max);
  }

  // ---------------------------------------------------------------------------
  // Part 2: the feedback loop
  // ---------------------------------------------------------------------------

  /** One amplifier run: its memory, where it resumes, the phase still to
      hand out and the input value. */
  type Amp = (seq<int>, nat, Option<int>, int) -> Result<Thrust, Failure>

  /** `calculate_thrust` as an amplifier run. */
  function Amplifier(fuel: nat): Amp {
    (program: seq<int>, pc: nat, phase: Option<int>, input: int) => ThrustOf(program, pc, phase, input, fuel)
  }

  /** One amplifier between runs: its memory and where it resumes. */
  datatype AmpState = AmpState(program: seq<int>, pc: nat)

  /** The amplifiers between runs, and the thrust handed to the next run. */
  datatype Ring = Ring(amps: seq<AmpState>, thrust: int)

  /** Where the loop resumes an amplifier after a run, and whether a run
      ends the loop. */
  datatype Policy = Policy(resumeAt: Thrust -> nat, ends: Thrust -> bool)

  /** As written: resume at the pc `run` returned, which after an
      output-stop is the Output itself; end once `has_halted` is set. */
  function AsWritten(): Policy {
    Policy((t: Thrust) => t.result.pc, (t: Thrust) => t.result.hasHalted)
  }

  /** Corrected: resume just past an Output the run stopped at, and end only
      when an amplifier returned at a Hlt. */
  function Corrected(): Policy {
    Policy(ResumePastOutput, StoppedAtHlt)
  }

  /** The pc after the Output the run stopped at, where the engine would
      have gone on had the bus not stopped it; otherwise the pc returned. */
  function ResumePastOutput(t: Thrust): nat {
    match Decode(t.mem, t.result.pc)
    case Ok(Output(c)) => t.result.pc + Size(Output(c))
    case _ => t.result.pc
  }

  predicate StoppedAtHlt(t: Thrust) {
    Decode(t.mem, t.result.pc) == Ok(Hlt)
  }

  /** The ring once amplifier `idx` has run and given thrust `t`. */
  function Store(ring: Ring, idx: nat, t: Thrust, policy: Policy): Ring
    requires idx < |ring.amps|
  {
    Ring(ring.amps[idx := AmpState(t.mem, policy.resumeAt(t))], t.value)
  }

  /** The first pass from position `idx` of the phase order on: each
      amplifier gets its phase and runs from pc 0. */
  function FirstPass(ring: Ring, config: seq<int>, idx: nat, amp: Amp, policy: Policy): Result<Ring, Failure>
    requires idx <= |config| <= |ring.amps|
    decreases |config| - idx
  {
    if idx == |config| then Ok(ring)
    else
      match amp(ring.amps[idx].program, 0, Some(config[idx]), ring.thrust)
      case Err(f) => Err(f)
      case Ok(t) => FirstPass(Store(ring, idx, t, policy), config, idx + 1, amp, policy)
  }

  /** How a pass of the feedback loop ended: the ring, and whether the loop
      ends. */
  datatype PassEnd = PassEnd(ring: Ring, ended: bool)

  /** A later pass from amplifier `idx` on: each resumes with no phase, and
      the loop ends after the first run the policy `ends`. */
  function Pass(ring: Ring, idx: nat, amp: Amp, policy: Policy): Result<PassEnd, Failure>
    requires idx <= |ring.amps|
    decreases |ring.amps| - idx
  {
    if idx == |ring.amps| then Ok(PassEnd(ring, false))
    else
      match amp(ring.amps[idx].program, ring.amps[idx].pc, None, ring.thrust)
      case Err(f) => Err(f)
      case Ok(t) =>
        var next := Store(ring, idx, t, policy);
        if policy.ends(t) then Ok(PassEnd(next, true)) else Pass(next, idx + 1, amp, policy)
  }

  /** The feedback loop for at most `passes` passes: after each complete pass
      the best thrust so far is raised to the last amplifier's thrust. */
  function Feedback(ring: Ring, best: int, passes: nat, amp: Amp, policy: Policy): Result<int, Failure>
    decreases passes
  {
    if passes == 0 then Err(Unfinished)
    else
      match Pass(ring, 0, amp, policy)
      case Err(f) => Err(f)
      case Ok(end) =>
        if end.ended then Ok(best) else Feedback(end.ring, Max(end.ring.thrust, best), passes - 1, amp, policy)
  }

  /** Five fresh copies of the program, all at pc 0, thrust 0. */
  function FreshRing(program: seq<int>): Ring {
    Ring(seq(5, _ => AmpState(program, 0)), 0)
  }

  /** One phase order: the first pass, then the loop. */
  function ConfigFeedback(program: seq<int>, config: seq<int>, best: int, passes: nat, amp: Amp, policy: Policy): Result<int, Failure>
    requires |config| == 5
  {
    match FirstPass(FreshRing(program), config, 0, amp, policy)
    case Err(f) => Err(f)
    case Ok(ring) => Feedback(ring, best, passes, amp, policy)
  }

  /** All phase orders, the best thrust threaded through them. */
  function BestFeedback(program: seq<int>, configs: seq<seq<int>>, best: int, passes: nat, amp: Amp, policy: Policy): Result<int, Failure>
    requires forall i | 0 <= i < |configs| :: |configs[i]| == 5
    decreases |configs|
  {
    if |configs| == 0 then Ok(best)
    else
      match ConfigFeedback(program, configs[0], best, passes, amp, policy)
      case Err(f) => Err(f)
      case Ok(b) => BestFeedback(program, configs[1..], b, passes, amp, policy)
  }

  /** The first pass keeps the number of amplifiers. */
  lemma {:induction false} FirstPassKeepsSize(ring: Ring, config: seq<int>, idx: nat, amp: Amp, policy: Policy)
    requires idx <= |config| <= |ring.amps|
    ensures FirstPass(ring, config, idx, amp, policy).Ok? ==>
      |FirstPass(ring, config, idx, amp, policy).value.amps| == |ring.amps|
    decreases |config| - idx
  {
    if idx < |config| {
      match amp(ring.amps[idx].program, 0, Some(config[idx]), ring.thrust)
      case Err(_) =>
      case Ok(t) => FirstPassKeepsSize(Store(ring, idx, t, policy), config, idx + 1, amp, policy);
    }
  }

  /** As written, a pass over a non-empty ring ends at its first run: every
      run of the engine returns with `has_halted` set. */
  lemma PassAsWrittenEndsAtOnce(ring: Ring, fuel: nat)
    requires |ring.amps| > 0
    ensures Pass(ring, 0, Amplifier(fuel), AsWritten()).Ok? ==> Pass(ring, 0, Amplifier(fuel), AsWritten()).value.ended
  {
    ThrustIsOutput(ring.amps[0].program, ring.amps[0].pc, None, ring.thrust, fuel);
  }

  /** As written, the loop never completes a pass, so the best thrust is
      never raised: part 2 answers its starting value (0) whenever it
      answers. */
  lemma {:induction false} BestFeedbackAsWrittenKeepsBest(program: seq<int>, configs: seq<seq<int>>, best: int, passes: nat, fuel: nat)
    requires forall i | 0 <= i < |configs| :: |configs[i]| == 5
    ensures BestFeedback(program, configs, best, passes, Amplifier(fuel), AsWritten()).Ok? ==>
      BestFeedback(program, configs, best, passes, Amplifier(fuel), AsWritten()).value == best
    decreases |configs|
  {
    if |configs| > 0 {
      var first := FirstPass(FreshRing(program), configs[0], 0, Amplifier(fuel), AsWritten());
      FirstPassKeepsSize(FreshRing(program), configs[0], 0, Amplifier(fuel), AsWritten());
      if first.Ok? && passes > 0 {
        PassAsWrittenEndsAtOnce(first.value, fuel);
      }
      BestFeedbackAsWrittenKeepsBest(program, configs[1..], best, passes, fuel);
    }
  }

  /** As written, an amplifier that stopped after an Output (with relative
      base 0) and is resumed where `run` returned delivers the same cell
      again and returns at once, in the same place and memory: it makes no
      progress. */
  lemma ResumeAsWrittenRepeatsOutput(t: Thrust, input: int, fuel: nat)
    requires fuel > 0 && t.result.relativeBase == 0
    requires Decode(t.mem, t.result.pc).Ok? && Decode(t.mem, t.result.pc).value.Output?
    requires Read(Decode(t.mem, t.result.pc).value.cell, t.mem, 0).Ok?
    ensures var v := Read(Decode(t.mem, t.result.pc).value.cell, t.mem, 0).value;
      ThrustOf(t.mem, AsWritten().resumeAt(t), None, input, fuel)
        == Ok(Thrust(v, RunResult(t.result.pc, 0, true), t.mem))
  {
    var instr := Decode(t.mem, t.result.pc).value;
    var bus := PhaseIoBus(None, input, 0);
    var e := Apply(instr, t.mem, t.result.pc, 0, bus, PhaseIo());
    ExecStep(t.mem, t.result.pc, 0, bus, PhaseIo(), fuel, instr, e);
  }

  /** The amplifier waits just past an Output instruction. */
  predicate ParkedAfterOutput(a: AmpState) {
    a.pc >= 2 && Decode(a.program, a.pc - 2).Ok? && Decode(a.program, a.pc - 2).value.Output?
  }

  /** Every run of `amp` that answers without ending the corrected loop
      parks its amplifier just past an Output. */
  ghost predicate ParksAfterOutput(amp: Amp) {
    forall program: seq<int>, pc: nat, input: int
      | amp(program, pc, None, input).Ok? && !StoppedAtHlt(amp(program, pc, None, input).value) ::
      ParkedAfterOutput(AmpState(amp(program, pc, None, input).value.mem, ResumePastOutput(amp(program, pc, None, input).value)))
  }

  /** Corrected, an amplifier run that does not end the loop parks its
      amplifier just past the Output it stopped at. */
  lemma AmplifierParks(fuel: nat)
    ensures ParksAfterOutput(Amplifier(fuel))
  {
    forall program: seq<int>, pc: nat, input: int
      | ThrustOf(program, pc, None, input, fuel).Ok? && !StoppedAtHlt(ThrustOf(program, pc, None, input, fuel).value)
      ensures ParkedAfterOutput(AmpState(ThrustOf(program, pc, None, input, fuel).value.mem,
        ResumePastOutput(ThrustOf(program, pc, None, input, fuel).value)))
    {
      ThrustIsOutput(program, pc, None, input, fuel);
    }
  }

  /** Corrected, a pass that does not end leaves every amplifier parked just
      past the Output it delivered, so the next pass takes up each program
      where it left off instead of repeating that Output. */
  lemma {:induction false} PassFixedParks(ring: Ring, idx: nat, amp: Amp)
    requires ParksAfterOutput(amp) && idx <= |ring.amps|
    requires forall i | 0 <= i < idx :: ParkedAfterOutput(ring.amps[i])
    requires Pass(ring, idx, amp, Corrected()).Ok? && !Pass(ring, idx, amp, Corrected()).value.ended
    ensures var after := Pass(ring, idx, amp, Corrected()).value.ring;
      |after.amps| == |ring.amps| && forall i | 0 <= i < |after.amps| :: ParkedAfterOutput(after.amps[i])
    decreases |ring.amps| - idx
  {
    if idx < |ring.amps| {
      var a := ring.amps[idx];
      var t := amp(a.program, a.pc, None, ring.thrust).value;
      var next := Store(ring, idx, t, Corrected());
      assert forall i | 0 <= i < idx + 1 :: next.amps[i] == (if i == idx then AmpState(t.mem, ResumePastOutput(t)) else ring.amps[i]);
      PassFixedParks(next, idx + 1, amp);
    }
  }

  /** The loop never lowers the best thrust, corrected or not. */
  lemma {:induction false} FeedbackAtLeastBest(ring: Ring, best: int, passes: nat, amp: Amp, policy: Policy)
    requires Feedback(ring, best, passes, amp, policy).Ok?
    ensures Feedback(ring, best, passes, amp, policy).value >= best
    decreases passes
  {
    var end := Pass(ring, 0, amp, policy).value;
    if !end.ended {
      FeedbackAtLeastBest(end.ring, Max(end.ring.thrust, best), passes - 1, amp, policy);
    }
  }

  /** The answer of part 2 is at least the starting value (0), corrected or
      not. */
  lemma {:induction false} BestFeedbackAtLeastBest(program: seq<int>, configs: seq<seq<int>>, best: int, passes: nat, amp: Amp, policy: Policy)
    requires forall i | 0 <= i < |configs| :: |configs[i]| == 5
    requires BestFeedback(program, configs, best, passes, amp, policy).Ok?
    ensures BestFeedback(program, configs, best, passes, amp, policy).value >= best
    decreases |configs|
  {
    if |configs| > 0 {
      var ring := FirstPass(FreshRing(program), configs[0], 0, amp, policy).value;
      FeedbackAtLeastBest(ring, best, passes, amp, policy);
      var b := ConfigFeedback(program, configs[0], best, passes, amp, policy).value;
      BestFeedbackAtLeastBest(program, configs[1..], b, passes, amp, policy);
    }
  }

  /** The first pass of `part2_impl1` over the amplifiers' memories and
      resume points; answers the last thrust. */
  method FirstPassInPlace(amps: array<AmpState>, config: seq<int>, fuel: nat, policy: Policy)
    returns (r: Result<int, Failure>)
    requires |config| <= amps.Length
    modifies amps
    ensures var f := FirstPass(Ring(old(amps[..]), 0), config, 0, Amplifier(fuel), policy);
      && (f.Ok? ==> r == Ok(f.value.thrust) && amps[..] == f.value.amps)
      && (f.Err? ==> r == Err(f.error))
  {
    var thrust := 0;
    for idx := 0 to |config|
      invariant FirstPass(Ring(amps[..], thrust), config, idx, Amplifier(fuel), policy)
        == FirstPass(Ring(old(amps[..]), 0), config, 0, Amplifier(fuel), policy)
    {
      ghost var ring := Ring(amps[..], thrust);
      var memory := new Memory(amps[idx].program);
      var res := CalculateThrust(memory, 0, Some(config[idx]), thrust, fuel);
      if res.Err? {
        return Err(res.error);
      }
      var t := Thrust(res.value.0, res.value.1, memory.cells);
      assert Amplifier(fuel)(ring.amps[idx].program, 0, Some(config[idx]), thrust) == Ok(t);
      thrust := t.value;
      amps[idx] := AmpState(memory.cells, policy.resumeAt(t));
      assert Ring(amps[..], thrust) == Store(ring, idx, t, policy);
    }
    r := Ok(thrust);
  }

  /** One pass of the feedback loop of `part2_impl1`; answers the last thrust
      and whether the loop ends. */
  method PassInPlace(amps: array<AmpState>, thrust: int, fuel: nat, policy: Policy)
    returns (r: Result<(int, bool), Failure>)
    modifies amps
    ensures var p := Pass(Ring(old(amps[..]), thrust), 0, Amplifier(fuel), policy);
      && (p.Ok? ==> r == Ok((p.value.ring.thrust, p.value.ended)) && amps[..] == p.value.ring.amps)
      && (p.Err? ==> r == Err(p.error))
  {
    var current := thrust;
    for idx := 0 to amps.Length
      invariant Pass(Ring(amps[..], current), idx, Amplifier(fuel), policy)
        == Pass(Ring(old(amps[..]), thrust), 0, Amplifier(fuel), policy)
    {
      ghost var ring := Ring(amps[..], current);
      var memory := new Memory(amps[idx].program);
      var res := CalculateThrust(memory, amps[idx].pc, None, current, fuel);
      if res.Err? {
        return Err(res.error);
      }
      var t := Thrust(res.value.0, res.value.1, memory.cells);
      assert Amplifier(fuel)(ring.amps[idx].program, ring.amps[idx].pc, None, current) == Ok(t);
      current := t.value;
      amps[idx] := AmpState(memory.cells, policy.resumeAt(t));
      assert Ring(amps[..], current) == Store(ring, idx, t, policy);
      if policy.ends(t) {
        return Ok((current, true));
      }
    }
    r := Ok((current, false));
  }

  /** The feedback loop of `part2_impl1` from the ring in the array, for at
      most `passes` passes, raising `best` after each complete pass. */
  method FeedbackInPlace(amps: array<AmpState>, thrust: int, best: int, passes: nat, fuel: nat, policy: Policy)
    returns (r: Result<int, Failure>)
    modifies amps
    ensures r == Feedback(Ring(old(amps[..]), thrust), best, passes, Amplifier(fuel), policy)
  {
    var current := thrust;
    var max := best;
    var left := passes;
    while true
      invariant Feedback(Ring(amps[..], current), max, left, Amplifier(fuel), policy)
        == Feedback(Ring(old(amps[..]), thrust), best, passes, Amplifier(fuel), policy)
      decreases left
    {
      if left == 0 {
        return Err(Unfinished);
      }
      var pass := PassInPlace(amps, current, fuel, policy);
      if pass.Err? {
        return Err(pass.error);
      }
      current := pass.value.0;
      if pass.value.1 {
        return Ok(max);
      }
      max := Max(current, max);
      left := left - 1;
    }
  }

  /** One phase order of `part2_impl1`: five fresh copies, the first pass,
      then the feedback loop. */
  method ConfigSearch(program: seq<int>, config: seq<int>, max: int, passes: nat, fuel: nat, policy: Policy)
    returns (r: Result<int, Failure>)
    requires |config| == 5
    ensures r == ConfigFeedback(program, config, max, passes, Amplifier(fuel), policy)
  {
    var amps := new AmpState[5](_ => AmpState(program, 0));
    assert amps[..] == FreshRing(program).amps;
    var first := FirstPassInPlace(amps, config, fuel, policy);
    if first.Err? {
      return Err(first.error);
    }
    r := FeedbackInPlace(amps, first.value, max, passes, fuel, policy);
  }

  /** The loops of `part2_impl1` over the given phase orders; the policy
      selects the resume point and the end test. */
  method FeedbackSearch(program: seq<int>, configs: seq<seq<int>>, passes: nat, fuel: nat, policy: Policy)
    returns (r: Result<int, Failure>)
    requires forall i | 0 <= i < |configs| :: |configs[i]| == 5
    ensures r == BestFeedback(program, configs, 0, passes, Amplifier(fuel), policy)
  {
    var max := 0;
    for k := 0 to |configs|
      invariant BestFeedback(program, configs[k..], max, passes, Amplifier(fuel), policy)
        == BestFeedback(program, configs, 0, passes, Amplifier(fuel), policy)
    {
      assert configs[k..][1..] == configs[k + 1..];
      var res := ConfigSearch(program, configs[k], max, passes, fuel, policy);
      if res.Err? {
        return Err(res.error);
      }
      max := res.value;
    }
    r := Ok(max);
  }

  /** `part2_impl1` as written. */
  method Part2(program: seq<int>, configs: seq<seq<int>>, passes: nat, fuel: nat) returns (r: Result<int, Failure>)
    requires forall i | 0 <= i < |configs| :: |configs[i]| == 5
    ensures r == BestFeedback(program, configs, 0, passes, Amplifier(fuel), AsWritten())
  {
    r := FeedbackSearch(program, configs, passes, fuel, AsWritten());
  }

  /** `part2_impl1` with the resume point moved past the delivered Output and
      the loop ended by a real Hlt. */
  method Part2Fixed(program: seq<int>, configs: seq<seq<int>>, passes: nat, fuel: nat) returns (r: Result<int, Failure>)
    requires forall i | 0 <= i < |configs| :: |configs[i]| == 5
    ensures r == BestFeedback(program, configs, 0, passes, Amplifier(fuel), Corrected())
  {
    r := FeedbackSearch(program, configs, passes, fuel, Corrected());
  }
}
