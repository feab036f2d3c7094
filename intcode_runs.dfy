/** What a whole run of the Intcode engine (src/intcode.rs) does to the I/O
    bus it is given: the values it hands to the bus's output, the state the
    bus is left in, and where a run that returns has stopped.  The day
    modules build their answers on these facts. */
module IntcodeRuns {
  import opened Wrappers
  import opened Intcode

  /** One instruction and the bus: only Input and Output consult it, and the
      bus moves to the state its reply carries. */
  lemma BusStep<S>(instr: Instr, mem: seq<int>, pc: nat, rb: nat, bus: S, io: IoBus<S>)
    requires |mem| > 0 && Decode(mem, pc) == Ok(instr)
    requires Apply(instr, mem, pc, rb, bus, io).Ok?
    ensures var e := Apply(instr, mem, pc, rb, bus, io).value;
      && (!instr.Input? && !instr.Output? ==> e.bus == bus && OutputAt(mem, pc, rb) == [])
      && (instr.Input? ==>
            && !io.input(bus).InputPanic? && e.bus == io.input(bus).next && OutputAt(mem, pc, rb) == []
            && (e.Next? <==> io.input(bus).Given?))
      && (instr.Output? ==>
            && |OutputAt(mem, pc, rb)| == 1
            && !io.output(bus, OutputAt(mem, pc, rb)[0]).OutputPanic?
            && e.bus == io.output(bus, OutputAt(mem, pc, rb)[0]).next
            && (e.Next? <==> io.output(bus, OutputAt(mem, pc, rb)[0]).Proceed?))
  {
    match instr
    case Output(c) =>
      assert OutputAt(mem, pc, rb) == [Read(c, mem, rb).value];
    case _ =>
  }

  /** Feeds `values` one by one to `apply`, starting from `t`. */
  function Replay<T>(apply: (T, int) -> T, t: T, values: seq<int>): T
    decreases |values|
  {
    if |values| == 0 then t else Replay(apply, apply(t, values[0]), values[1..])
  }

  /** Answering an Input leaves what `view` sees of the bus alone. */
  ghost predicate InputKeeps<S(!new), T>(io: IoBus<S>, view: S -> T) {
    forall b: S :: !io.input(b).InputPanic? ==> view(io.input(b).next) == view(b)
  }

  /** Accepting an Output changes what `view` sees of the bus by `apply`. */
  ghost predicate OutputApplies<S(!new), T>(io: IoBus<S>, view: S -> T, apply: (T, int) -> T) {
    forall b: S, v: int :: !io.output(b, v).OutputPanic? ==> view(io.output(b, v).next) == apply(view(b), v)
  }

  /** A bus that never runs out of input. */
  ghost predicate AlwaysGives<S(!new)>(io: IoBus<S>) {
    forall b: S :: !io.input(b).Unavailable?
  }

  /** A bus that never asks a run to stop after an Output. */
  ghost predicate NeverStops<S(!new)>(io: IoBus<S>) {
    forall b: S, v: int :: !io.output(b, v).StopRequested?
  }

  /** A bus that asks a run to stop after every Output it accepts. */
  ghost predicate AlwaysStops<S(!new)>(io: IoBus<S>) {
    forall b: S, v: int :: !io.output(b, v).Proceed?
  }

  /** If Inputs leave `view` alone and each Output applies `apply` to it, then
      a run that does not panic leaves the bus with `view` equal to the
      replay of every value it emitted, in order. */
  lemma {:induction false} ExecReplays<S(!new), T>(mem: seq<int>, pc: nat, rb: nat, bus: S, io: IoBus<S>, fuel: nat,
                                             view: S -> T, apply: (T, int) -> T)
    requires InputKeeps(io, view) && OutputApplies(io, view, apply)
    requires !Exec(mem, pc, rb, bus, io, fuel).Crashed?
    ensures view(Exec(mem, pc, rb, bus, io, fuel).bus) == Replay(apply, view(bus), Emitted(mem, pc, rb, bus, io, fuel))
    decreases fuel
  {
    if fuel > 0 {
      match Decode(mem, pc)
      case Err(_) =>
        ExecUndecodable(mem, pc, rb, bus, io, fuel);
      case Ok(instr) =>
        var r := Apply(instr, mem, pc, rb, bus, io);
        ExecStep(mem, pc, rb, bus, io, fuel, instr, r);
        EmittedStep(mem, pc, rb, bus, io, fuel, instr, r);
        BusStep(instr, mem, pc, rb, bus, io);
        var e := r.value;
        var out := OutputAt(mem, pc, rb);
        assert view(e.bus) == Replay(apply, view(bus), out) by {
          if instr.Output? {
            assert Replay(apply, view(bus), out) == Replay(apply, apply(view(bus), out[0]), []);
          }
        }
        if e.Next? {
          ExecReplays(e.mem, e.pc, e.relativeBase, e.bus, io, fuel - 1, view, apply);
          var rest := Emitted(e.mem, e.pc, e.relativeBase, e.bus, io, fuel - 1);
          if instr.Output? {
            assert (out + rest)[1..] == rest;
          } else {
            assert out + rest == rest;
          }
        }
    }
  }

  /** A run that returns has halted, and it returned at a Hlt, at an Input
      the bus left unanswered, or at an Output after which the bus asked to
      stop (in the bus state the run returns with); memory, pc and relative
      base are those that instruction found. */
  lemma {:induction false} ReturnedAtStop<S(!new)>(mem: seq<int>, pc: nat, rb: nat, bus: S, io: IoBus<S>, fuel: nat)
    requires Exec(mem, pc, rb, bus, io, fuel).Returned?
    ensures var o := Exec(mem, pc, rb, bus, io, fuel); o.result.hasHalted && Decode(o.mem, o.result.pc).Ok?
    ensures var o := Exec(mem, pc, rb, bus, io, fuel); var instr := Decode(o.mem, o.result.pc).value;
      || instr.Hlt?
      || (instr.Input? && exists b: S :: io.input(b) == Unavailable(o.bus))
      || (instr.Output? && Read(instr.cell, o.mem, o.result.relativeBase).Ok?
          && exists b: S, v: int :: io.output(b, v) == StopRequested(o.bus))
    decreases fuel
  {
    match Decode(mem, pc)
    case Err(_) =>
      ExecUndecodable(mem, pc, rb, bus, io, fuel);
    case Ok(instr) =>
      var r := Apply(instr, mem, pc, rb, bus, io);
      ExecStep(mem, pc, rb, bus, io, fuel, instr, r);
      if r.value.Next? {
        var e := r.value;
        ReturnedAtStop(e.mem, e.pc, e.relativeBase, e.bus, io, fuel - 1);
      } else {
        match instr
        case Input(_) =>
          assert io.input(bus).Unavailable?;
        case Output(c) =>
          assert io.output(bus, Read(c, mem, rb).value).StopRequested?;
        case _ =>
      }
  }

  /** With a bus that stops the run at every Output, a run emits at most one
      value. */
  lemma {:induction false} EmitsAtMostOne<S(!new)>(mem: seq<int>, pc: nat, rb: nat, bus: S, io: IoBus<S>, fuel: nat)
    requires AlwaysStops(io)
    ensures |Emitted(mem, pc, rb, bus, io, fuel)| <= 1
    decreases fuel
  {
    if fuel > 0 {
      match Decode(mem, pc)
      case Err(_) =>
      case Ok(instr) =>
        var r := Apply(instr, mem, pc, rb, bus, io);
        EmittedStep(mem, pc, rb, bus, io, fuel, instr, r);
        if r.Ok? && r.value.Next? {
          var e := r.value;
          BusStep(instr, mem, pc, rb, bus, io);
          assert OutputAt(mem, pc, rb) == [];
          EmitsAtMostOne(e.mem, e.pc, e.relativeBase, e.bus, io, fuel - 1);
        }
    }
  }

  /** No instruction shrinks memory. */
  lemma ApplyNeverShrinks<S>(instr: Instr, mem: seq<int>, pc: nat, rb: nat, bus: S, io: IoBus<S>)
    requires |mem| > 0 && Apply(instr, mem, pc, rb, bus, io).Ok?
    ensures |Apply(instr, mem, pc, rb, bus, io).value.mem| >= |mem|
  {
  }

  /** A run never shrinks memory: a run that does not panic leaves at least
      as many cells as it started with. */
  lemma {:induction false} ExecNeverShrinks<S>(mem: seq<int>, pc: nat, rb: nat, bus: S, io: IoBus<S>, fuel: nat)
    requires !Exec(mem, pc, rb, bus, io, fuel).Crashed?
    ensures |Exec(mem, pc, rb, bus, io, fuel).mem| >= |mem|
    ensures Exec(mem, pc, rb, bus, io, fuel).Returned? ==> |mem| > 0
    decreases fuel
  {
    if fuel > 0 {
      match Decode(mem, pc)
      case Err(_) =>
        ExecUndecodable(mem, pc, rb, bus, io, fuel);
      case Ok(instr) =>
        var r := Apply(instr, mem, pc, rb, bus, io);
        ExecStep(mem, pc, rb, bus, io, fuel, instr, r);
        ApplyNeverShrinks(instr, mem, pc, rb, bus, io);
        if r.value.Next? {
          ExecNeverShrinks(r.value.mem, r.value.pc, r.value.relativeBase, r.value.bus, io, fuel - 1);
        }
    }
  }

  /** Keeping only the most recent value. */
  function Latest(held: int, value: int): int {
    value
  }

  /** Replaying with `Latest` yields the last value, or the start if none. */
  lemma {:induction false} ReplayLatest(t: int, values: seq<int>)
    ensures Replay(Latest, t, values) == if |values| == 0 then t else values[|values| - 1]
    decreases |values|
  {
    if |values| > 0 {
      ReplayLatest(values[0], values[1..]);
    }
  }
}
