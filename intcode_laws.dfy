/** What one step and a bounded run of the Intcode engine (src/intcode.rs)
    guarantee: when `run` returns, where the program counter goes, which
    memory cells an instruction writes, and the engine's own test programs. */
module IntcodeLaws {
  import opened Wrappers
  import opened Intcode

  /** The operand an Add, Mul or Input stores through. */
  function Destination(instr: Instr): Mod
    requires instr.Add? || instr.Mul? || instr.Input?
  {
    match instr
    case Add(_, _, d) => d
    case Mul(_, _, d) => d
    case Input(d) => d
  }

  /** A JNZ whose condition is non-zero or a JZ whose condition is zero. */
  predicate Jumps(instr: Instr, mem: seq<int>, rb: nat) {
    && (instr.JNZ? || instr.JZ?)
    && Read(instr.cond, mem, rb).Ok?
    && (Read(instr.cond, mem, rb).value != 0 <==> instr.JNZ?)
  }

  /** `run` returns exactly at a Hlt, at an Input the bus has no value for,
      and at an Output after which the bus asks to stop; it returns with the
      memory, the program counter and the relative base the instruction found. */
  lemma StopCases<S>(mem: seq<int>, pc: nat, rb: nat, bus: S, io: IoBus<S>)
    requires Step(mem, pc, rb, bus, io).Ok?
    ensures Decode(mem, pc).Ok?
    ensures var instr := Decode(mem, pc).value;
      Step(mem, pc, rb, bus, io).value.Stop? <==>
        || instr.Hlt?
        || (instr.Input? && io.input(bus).Unavailable?)
        || (instr.Output? && |OutputAt(mem, pc, rb)| == 1
            && io.output(bus, OutputAt(mem, pc, rb)[0]).StopRequested?)
    ensures var e := Step(mem, pc, rb, bus, io).value;
      e.Stop? ==> e.mem == mem && e.pc == pc && e.relativeBase == rb
  {
    var instr := Decode(mem, pc).value;
    assert Step(mem, pc, rb, bus, io) == Apply(instr, mem, pc, rb, bus, io);
    match instr
    case Output(c) =>
      assert OutputAt(mem, pc, rb) == [Read(c, mem, rb).value];
    case _ =>
  }

  /** Where the program counter goes: to the target of a taken jump, and past
      the instruction (by its size) otherwise. */
  lemma NextPc<S>(mem: seq<int>, pc: nat, rb: nat, bus: S, io: IoBus<S>)
    requires Step(mem, pc, rb, bus, io).Ok? && Step(mem, pc, rb, bus, io).value.Next?
    ensures Decode(mem, pc).Ok?
    ensures var instr := Decode(mem, pc).value; var e := Step(mem, pc, rb, bus, io).value;
      && (Jumps(instr, mem, rb) ==> Read(instr.target, mem, rb) == Ok(e.pc as int))
      && (!Jumps(instr, mem, rb) ==> e.pc == pc + Size(instr))
  {
    var instr := Decode(mem, pc).value;
    assert Step(mem, pc, rb, bus, io) == Apply(instr, mem, pc, rb, bus, io);
  }

  /** Add, Mul and Input zero-grow memory to hold their destination and then
      change that one cell: every other cell keeps its value (new cells are 0). */
  lemma StoreWritesOneCell<S>(mem: seq<int>, pc: nat, rb: nat, bus: S, io: IoBus<S>)
    requires Step(mem, pc, rb, bus, io).Ok? && Step(mem, pc, rb, bus, io).value.Next?
    requires Decode(mem, pc).Ok?
    requires var instr := Decode(mem, pc).value; instr.Add? || instr.Mul? || instr.Input?
    ensures var instr := Decode(mem, pc).value; Index(Destination(instr), rb).Ok?
    ensures var instr := Decode(mem, pc).value; var e := Step(mem, pc, rb, bus, io).value;
      var idx := Index(Destination(instr), rb).value;
      && |e.mem| == (if idx < |mem| then |mem| else idx + 1)
      && forall i | 0 <= i < |e.mem| && i != idx :: e.mem[i] == (if i < |mem| then mem[i] else 0)
    ensures var instr := Decode(mem, pc).value; var e := Step(mem, pc, rb, bus, io).value;
      var idx := Index(Destination(instr), rb).value;
      var grown := Grown(mem, idx, 0);
      && (instr.Add? ==>
            && Read(instr.augend, grown, rb).Ok? && Read(instr.addend, grown, rb).Ok?
            && e.mem[idx] == Read(instr.augend, grown, rb).value + Read(instr.addend, grown, rb).value)
      && (instr.Mul? ==>
            && Read(instr.multiplicand, grown, rb).Ok? && Read(instr.multiplier, grown, rb).Ok?
            && e.mem[idx] == Read(instr.multiplicand, grown, rb).value * Read(instr.multiplier, grown, rb).value)
      && (instr.Input? ==> io.input(bus) == Given(e.mem[idx], e.bus))
  {
    var instr := Decode(mem, pc).value;
    assert Step(mem, pc, rb, bus, io) == Apply(instr, mem, pc, rb, bus, io);
  }

  /** LT and EQ store 1 or 0 at the address given by the third operand's
      value, without growing memory; every other instruction that goes on
      leaves memory alone. */
  lemma CompareWritesOneCell<S>(mem: seq<int>, pc: nat, rb: nat, bus: S, io: IoBus<S>)
    requires Step(mem, pc, rb, bus, io).Ok? && Step(mem, pc, rb, bus, io).value.Next?
    requires Decode(mem, pc).Ok?
    ensures var instr := Decode(mem, pc).value; var e := Step(mem, pc, rb, bus, io).value;
      (instr.LT? || instr.EQ?) ==>
        && Read(instr.lhs, mem, rb).Ok? && Read(instr.rhs, mem, rb).Ok? && Read(instr.dst, mem, rb).Ok?
        && 0 <= Read(instr.dst, mem, rb).value < |mem|
        && var holds := if instr.LT? then Read(instr.lhs, mem, rb).value < Read(instr.rhs, mem, rb).value
                        else Read(instr.lhs, mem, rb).value == Read(instr.rhs, mem, rb).value;
           e.mem == mem[Read(instr.dst, mem, rb).value := if holds then 1 else 0]
    ensures var instr := Decode(mem, pc).value; var e := Step(mem, pc, rb, bus, io).value;
      (instr.Output? || instr.JNZ? || instr.JZ? || instr.ModRelBas?) ==> e.mem == mem
  {
    var instr := Decode(mem, pc).value;
    assert Step(mem, pc, rb, bus, io) == Apply(instr, mem, pc, rb, bus, io);
  }

  /** ModRelBas replaces the relative base by its operand's value (it does
      not add to it); no other instruction touches the relative base. */
  lemma RelativeBaseAssigned<S>(mem: seq<int>, pc: nat, rb: nat, bus: S, io: IoBus<S>)
    requires Step(mem, pc, rb, bus, io).Ok?
    ensures Decode(mem, pc).Ok?
    ensures var instr := Decode(mem, pc).value; var e := Step(mem, pc, rb, bus, io).value;
      && (instr.ModRelBas? ==> Read(instr.base, mem, rb) == Ok(e.relativeBase as int))
      && (!instr.ModRelBas? ==> e.relativeBase == rb)
  {
    var instr := Decode(mem, pc).value;
    assert Step(mem, pc, rb, bus, io) == Apply(instr, mem, pc, rb, bus, io);
  }

  /** An Immediate operand cannot be stored through: an Add or Mul with an
      Immediate destination panics (so does an Input once it has a value). */
  lemma ImmediateDestinationFaults<S>(mem: seq<int>, pc: nat, rb: nat, bus: S, io: IoBus<S>)
    requires Decode(mem, pc).Ok?
    requires var instr := Decode(mem, pc).value;
      (instr.Add? || instr.Mul? || (instr.Input? && io.input(bus).Given?))
      && Destination(instr).Immediate?
    ensures Step(mem, pc, rb, bus, io) == Err(ImmediateIndex)
  {
    var instr := Decode(mem, pc).value;
    assert Step(mem, pc, rb, bus, io) == Apply(instr, mem, pc, rb, bus, io);
  }

  /** `NoIoBusImpl`: with `panic` set every Input and every Output (whose
      operand can be read) panics; otherwise the run returns there. */
  lemma NoIoRefuses(mem: seq<int>, pc: nat, rb: nat, b: NoIoBusImpl)
    requires Decode(mem, pc).Ok?
    requires var instr := Decode(mem, pc).value;
      instr.Input? || (instr.Output? && Read(instr.cell, mem, rb).Ok?)
    ensures Step(mem, pc, rb, b, NoIo()) == if b.panic then Err(IoRefused) else Ok(Stop(mem, pc, rb, b))
  {
    var instr := Decode(mem, pc).value;
    assert Step(mem, pc, rb, b, NoIo()) == Apply(instr, mem, pc, rb, b, NoIo());
  }

  /** A run that returned or panicked within `fuel` instructions does the same
      with any larger bound. */
  lemma {:induction false} ExecFuelMonotone<S>(mem: seq<int>, pc: nat, rb: nat, bus: S, io: IoBus<S>, fuel: nat, more: nat)
    requires !Exec(mem, pc, rb, bus, io, fuel).OutOfFuel?
    requires fuel <= more
    ensures Exec(mem, pc, rb, bus, io, more) == Exec(mem, pc, rb, bus, io, fuel)
    decreases fuel
  {
    match Decode(mem, pc)
    case Err(_) =>
      ExecUndecodable(mem, pc, rb, bus, io, fuel);
      ExecUndecodable(mem, pc, rb, bus, io, more);
    case Ok(instr) =>
      var r := Apply(instr, mem, pc, rb, bus, io);
      ExecStep(mem, pc, rb, bus, io, fuel, instr, r);
      ExecStep(mem, pc, rb, bus, io, more, instr, r);
      if r.Ok? && r.value.Next? {
        var e := r.value;
        ExecFuelMonotone(e.mem, e.pc, e.relativeBase, e.bus, io, fuel - 1, more - 1);
      }
  }

  /** The first test program of the engine (the worked example of the Add and
      Mul instructions) returns at its Hlt, halted, with 3500 in cell 0. */
  lemma RunExampleSum()
    ensures Exec([1, 9, 10, 3, 2, 3, 11, 0, 99, 30, 40, 50], 0, 0, NoIoDefault(), NoIo(), 3)
      == Returned(RunResult(8, 0, true), [3500, 9, 10, 70, 2, 3, 11, 0, 99, 30, 40, 50], NoIoDefault())
  {
    var m0 := [1, 9, 10, 3, 2, 3, 11, 0, 99, 30, 40, 50];
    var m1 := m0[3 := 70];
    var m2 := m1[0 := 3500];
    assert Decode(m0, 0) == Ok(Add(Position(9), Position(10), Position(3)));
    assert Step(m0, 0, 0, NoIoDefault(), NoIo()) == Ok(Next(m1, 4, 0, NoIoDefault()));
    assert Decode(m1, 4) == Ok(Mul(Position(3), Position(11), Position(0)));
    assert Step(m1, 4, 0, NoIoDefault(), NoIo()) == Ok(Next(m2, 8, 0, NoIoDefault()));
    assert Decode(m2, 8) == Ok(Hlt);
    assert Step(m2, 8, 0, NoIoDefault(), NoIo()) == Ok(Stop(m2, 8, 0, NoIoDefault()));
    assert Exec(m2, 8, 0, NoIoDefault(), NoIo(), 1) == Returned(RunResult(8, 0, true), m2, NoIoDefault());
    assert Exec(m1, 4, 0, NoIoDefault(), NoIo(), 2) == Exec(m2, 8, 0, NoIoDefault(), NoIo(), 1);
  }

  /** The second test program overwrites its own Hlt with a Mul and returns at
      the next Hlt, halted, with 30 in cell 0. */
  lemma RunExampleProduct()
    ensures Exec([1, 1, 1, 4, 99, 5, 6, 0, 99], 0, 0, NoIoDefault(), NoIo(), 3)
      == Returned(RunResult(8, 0, true), [30, 1, 1, 4, 2, 5, 6, 0, 99], NoIoDefault())
  {
    var m0 := [1, 1, 1, 4, 99, 5, 6, 0, 99];
    var m1 := m0[4 := 2];
    var m2 := m1[0 := 30];
    assert Decode(m0, 0) == Ok(Add(Position(1), Position(1), Position(4)));
    assert Step(m0, 0, 0, NoIoDefault(), NoIo()) == Ok(Next(m1, 4, 0, NoIoDefault()));
    assert Decode(m1, 4) == Ok(Mul(Position(5), Position(6), Position(0)));
    assert Step(m1, 4, 0, NoIoDefault(), NoIo()) == Ok(Next(m2, 8, 0, NoIoDefault()));
    assert Decode(m2, 8) == Ok(Hlt);
    assert Step(m2, 8, 0, NoIoDefault(), NoIo()) == Ok(Stop(m2, 8, 0, NoIoDefault()));
    assert Exec(m2, 8, 0, NoIoDefault(), NoIo(), 1) == Returned(RunResult(8, 0, true), m2, NoIoDefault());
    assert Exec(m1, 4, 0, NoIoDefault(), NoIo(), 2) == Exec(m2, 8, 0, NoIoDefault(), NoIo(), 1);
  }

  /** The tests of `digit_at_pos`: digits of 3 and 13, a position past the
      last digit, and a negative value. */
  lemma DigitAtPosExamples()
    ensures DigitAtPos(3, 0) == Ok(3)
    ensures DigitAtPos(13, 0) == Ok(3)
    ensures DigitAtPos(13, 7) == Ok(0)
    ensures DigitAtPos(-13, 1).Err? && DigitAtPos(-13, 0).Err?
  {
    assert Pow10(7) == 10000000;
  }
}
