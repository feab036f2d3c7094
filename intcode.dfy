/** The Intcode virtual machine (src/intcode.rs): the instruction decoder, the
    growable memory, operand resolution and the resumable execution loop.

    Memory is a sequence of unbounded integers; the machine registers are the
    program counter and the relative base; the caller's I/O bus is a state value
    of any type `S` together with the two operations of the Rust `IoBus` trait,
    each of which answers with the bus's next state.  Every panic and every
    debug assertion of the Rust engine is a `Fault`. */
module Intcode {
  import opened Wrappers

  // ---------------------------------------------------------------------------
  // Faults: the ways the Rust engine panics
  // ---------------------------------------------------------------------------

  datatype Fault =
    | PcOutOfBounds(pc: nat)                // `&program[pc..]` or `program[0]` past the end
    | MissingOperand(at: nat, param: nat)   // `program[param + 1]` past the end
    | UnsupportedOp(op: int, word: int)     // opcode outside {1..9, 99}
    | UnknownMode(mode: int)                // mode digit outside {0, 1, 2}
    | NegativeDigitSource(n: int)           // `digit_at_pos` of a negative value
    | NegativeAddress(addr: int)            // a negative Position or resolved address
    | ImmediateIndex                        // `Mod::index` of an Immediate operand
    | OutOfBounds(index: nat)               // reading, or an LT/EQ store, past the end
    | NegativeJump(target: int)             // jump target below zero
    | NegativeBase(base: int)               // new relative base below zero
    | IoRefused                             // a bus that panics on I/O

  // ---------------------------------------------------------------------------
  // Operands and instructions
  // ---------------------------------------------------------------------------

  /** An operand (`Mod`): the literal value, a direct address, or an offset
      from the relative base. */
  datatype Mod = Immediate(value: int) | Position(addr: nat) | Relative(offset: int)

  datatype Instr =
    | Add(augend: Mod, addend: Mod, sum: Mod)
    | Mul(multiplicand: Mod, multiplier: Mod, product: Mod)
    | Input(dst: Mod)
    | Output(cell: Mod)
    | JNZ(cond: Mod, target: Mod)
    | JZ(cond: Mod, target: Mod)
    | LT(lhs: Mod, rhs: Mod, dst: Mod)
    | EQ(lhs: Mod, rhs: Mod, dst: Mod)
    | ModRelBas(base: Mod)
    | Hlt

  /** The operands of an instruction, in the order they are encoded. */
  function Operands(instr: Instr): seq<Mod> {
    match instr
    case Add(a, b, c) => [a, b, c]
    case Mul(a, b, c) => [a, b, c]
    case Input(d) => [d]
    case Output(c) => [c]
    case JNZ(c, t) => [c, t]
    case JZ(c, t) => [c, t]
    case LT(a, b, c) => [a, b, c]
    case EQ(a, b, c) => [a, b, c]
    case ModRelBas(b) => [b]
    case Hlt => []
  }

  /** The opcode that encodes an instruction. */
  function OpCode(instr: Instr): int {
    match instr
    case Add(_, _, _) => 1
    case Mul(_, _, _) => 2
    case Input(_) => 3
    case Output(_) => 4
    case JNZ(_, _) => 5
    case JZ(_, _) => 6
    case LT(_, _, _) => 7
    case EQ(_, _, _) => 8
    case ModRelBas(_) => 9
    case Hlt => 99
  }

  /** The mode digit that selects an operand's kind. */
  function ModeDigit(m: Mod): int {
    match m
    case Position(_) => 0
    case Immediate(_) => 1
    case Relative(_) => 2
  }

  /** The parameter word an operand was decoded from. */
  function Raw(m: Mod): int {
    match m
    case Position(a) => a
    case Immediate(v) => v
    case Relative(o) => o
  }

  /** `Instr::size`: the number of words an instruction occupies. */
  function Size(instr: Instr): (n: nat)
    ensures n == 1 + |Operands(instr)|
  {
    match instr
    case Add(_, _, _) => 4
    case Mul(_, _, _) => 4
    case Input(_) => 2
    case Output(_) => 2
    case JNZ(_, _) => 3
    case JZ(_, _) => 3
    case LT(_, _, _) => 4
    case EQ(_, _, _) => 4
    case ModRelBas(_) => 2
    case Hlt => 1
  }

  // ---------------------------------------------------------------------------
  // Decimal digits
  // ---------------------------------------------------------------------------

  function Pow10(p: nat): (r: nat)
    ensures r >= 1
  {
    if p == 0 then 1 else 10 * Pow10(p - 1)
  }

  /** Rust's `%` on signed integers: the remainder takes the sign of the
      dividend (Dafny's `%` is Euclidean). */
  function TruncRem(a: int, m: int): (r: int)
    requires m > 0
    ensures -m < r < m
    ensures a >= 0 ==> r == a % m
    ensures a < 0 ==> -r == (-a) % m
  {
    if a >= 0 then a % m else -((-a) % m)
  }

  /** `digit_at_pos`: the decimal digit of `n` at position `pos` (0 is the
      least significant); panics on a negative `n`. */
  function DigitAtPos(n: int, pos: nat): (r: Result<int, Fault>)
    ensures r.Ok? <==> n >= 0
    ensures r.Ok? ==> 0 <= r.value <= 9
  {
    if n < 0 then Err(NegativeDigitSource(n)) else Ok((n / Pow10(pos)) % 10)
  }

  lemma MulAtLeast(k: int, m: int)
    requires k >= 1 && m > 0
    ensures k * m >= m
  {
  }

  lemma DivUnique(n: int, m: int, q: int, r: int)
    requires m > 0 && 0 <= r < m && n == q * m + r
    ensures n / m == q && n % m == r
  {
    var q', r' := n / m, n % m;
    assert q' * m + r' == n;
    if q > q' {
      MulAtLeast(q - q', m);
      assert false;
    } else if q < q' {
      MulAtLeast(q' - q, m);
      assert false;
    }
  }

  lemma Regroup(a: int, d: int, p: int, low: int)
    ensures (a * 10 + d) * p + low == a * (10 * p) + (d * p + low)
  {
    assert (a * 10 + d) * p == (a * 10) * p + d * p;
    assert (a * 10) * p == a * (10 * p);
  }

  lemma DigitBound(d: int, p: int, low: int)
    requires 0 <= d <= 9 && 0 <= low < p
    ensures 0 <= d * p + low < 10 * p
  {
    assert d * p <= 9 * p;
  }

  /** Dividing by `10 * p` is dividing by `p` and then by 10; the remainder
      keeps the digit at `p`'s place and everything below it. */
  lemma SplitDigit(n: int, p: int)
    requires n >= 0 && p > 0
    ensures n / (10 * p) == (n / p) / 10
    ensures n % (10 * p) == ((n / p) % 10) * p + n % p
  {
    var q, low := n / p, n % p;
    var a, d := q / 10, q % 10;
    Regroup(a, d, p, low);
    DigitBound(d, p, low);
    DivUnique(n, 10 * p, a, d * p + low);
  }

  /** The digit at `pos` is the one decimal expansion puts there: `n` is its
      higher part, that digit times 10^pos, and its lower part. */
  lemma DigitAtPosExpansion(n: int, pos: nat)
    requires n >= 0
    ensures n == (n / Pow10(pos + 1)) * Pow10(pos + 1)
               + DigitAtPos(n, pos).value * Pow10(pos) + n % Pow10(pos)
  {
    var p := Pow10(pos);
    assert Pow10(pos + 1) == 10 * p;
    SplitDigit(n, p);
    assert n == (n / (10 * p)) * (10 * p) + n % (10 * p);
  }

  // ---------------------------------------------------------------------------
  // The decoder
  // ---------------------------------------------------------------------------

  /** `Mod::parse`: the operand for parameter `param` of the instruction at
      `pc`, its kind chosen by digit `param + 2` of the instruction word. */
  function ParseMod(mem: seq<int>, pc: nat, param: nat): (r: Result<Mod, Fault>)
    requires pc < |mem|
    ensures r.Ok? ==> pc + param + 1 < |mem| && mem[pc] >= 0
    ensures r.Ok? ==> Raw(r.value) == mem[pc + param + 1]
    ensures r.Ok? ==> ModeDigit(r.value) == (mem[pc] / Pow10(param + 2)) % 10
  {
    if pc + param + 1 >= |mem| then Err(MissingOperand(pc, param))
    else
      var word := mem[pc];
      var read := mem[pc + param + 1];
      var mode :- DigitAtPos(word, param + 2);
      if mode == 0 then
        if read >= 0 then Ok(Position(read)) else Err(NegativeAddress(read))
      else if mode == 1 then Ok(Immediate(read))
      else if mode == 2 then Ok(Relative(read))
      else Err(UnknownMode(mode))
  }

  /** `Instr::parse`: the instruction at `pc`. */
  function Decode(mem: seq<int>, pc: nat): (r: Result<Instr, Fault>)
    ensures r.Ok? ==> pc + |Operands(r.value)| < |mem|
  {
    if pc >= |mem| then Err(PcOutOfBounds(pc))
    else
      var word := mem[pc];
      var op := TruncRem(word, 100);
      match op
      case 99 => Ok(Hlt)
      case 1 =>
        var a :- ParseMod(mem, pc, 0);
        var b :- ParseMod(mem, pc, 1);
        var c :- ParseMod(mem, pc, 2);
        Ok(Add(a, b, c))
      case 2 =>
        var a :- ParseMod(mem, pc, 0);
        var b :- ParseMod(mem, pc, 1);
        var c :- ParseMod(mem, pc, 2);
        Ok(Mul(a, b, c))
      case 3 =>
        var d :- ParseMod(mem, pc, 0);
        Ok(Input(d))
      case 4 =>
        var c :- ParseMod(mem, pc, 0);
        Ok(Output(c))
      case 5 =>
        var c :- ParseMod(mem, pc, 0);
        var t :- ParseMod(mem, pc, 1);
        Ok(JNZ(c, t))
      case 6 =>
        var c :- ParseMod(mem, pc, 0);
        var t :- ParseMod(mem, pc, 1);
        Ok(JZ(c, t))
      case 7 =>
        var a :- ParseMod(mem, pc, 0);
        var b :- ParseMod(mem, pc, 1);
        var c :- ParseMod(mem, pc, 2);
        Ok(LT(a, b, c))
      case 8 =>
        var a :- ParseMod(mem, pc, 0);
        var b :- ParseMod(mem, pc, 1);
        var c :- ParseMod(mem, pc, 2);
        Ok(EQ(a, b, c))
      case 9 =>
        var b :- ParseMod(mem, pc, 0);
        Ok(ModRelBas(b))
      case _ => Err(UnsupportedOp(op, word))
  }

  /** The encoding rule, stated independently of the decoder: the word at `pc`
      is non-negative, its value mod 100 is the opcode, digit i + 2 is the mode
      of operand i, and operand i is read from the word at pc + 1 + i. */
  ghost predicate Encodes(mem: seq<int>, pc: nat, instr: Instr) {
    var ops := Operands(instr);
    && pc + |ops| < |mem|
    && mem[pc] >= 0
    && mem[pc] % 100 == OpCode(instr)
    && forall i :: 0 <= i < |ops| ==>
         ModeDigit(ops[i]) == (mem[pc] / Pow10(i + 2)) % 10 && Raw(ops[i]) == mem[pc + 1 + i]
  }

  lemma ModeDetermines(m: Mod, n: Mod)
    requires ModeDigit(m) == ModeDigit(n) && Raw(m) == Raw(n)
    ensures m == n
  {
  }

  /** Every instruction the decoder produces is encoded at `pc`. */
  lemma DecodeSound(mem: seq<int>, pc: nat)
    ensures Decode(mem, pc).Ok? ==> Encodes(mem, pc, Decode(mem, pc).value)
  {
    if Decode(mem, pc).Ok? {
      var instr := Decode(mem, pc).value;
      var word := mem[pc];
      assert word >= 0;
      assert TruncRem(word, 100) == word % 100;
      var ops := Operands(instr);
      forall i | 0 <= i < |ops|
        ensures ModeDigit(ops[i]) == (mem[pc] / Pow10(i + 2)) % 10 && Raw(ops[i]) == mem[pc + 1 + i]
      {
        assert ops[i] == ParseMod(mem, pc, i).value;
      }
    }
  }

  /** An instruction encoded at `pc` is what the decoder produces. */
  lemma DecodeComplete(mem: seq<int>, pc: nat, instr: Instr)
    requires Encodes(mem, pc, instr)
    ensures Decode(mem, pc) == Ok(instr)
  {
    var word := mem[pc];
    assert TruncRem(word, 100) == OpCode(instr);
    var ops := Operands(instr);
    forall i | 0 <= i < |ops|
      ensures ParseMod(mem, pc, i) == Ok(ops[i])
    {
      var r := ParseMod(mem, pc, i);
      var mode := (word / Pow10(i + 2)) % 10;
      assert DigitAtPos(word, i + 2) == Ok(mode);
      assert ModeDigit(ops[i]) == mode && Raw(ops[i]) == mem[pc + 1 + i];
      assert r.Ok?;
      ModeDetermines(r.value, ops[i]);
    }
  }

  /** The decoder's worked example: [1001, 1, 1, 1] is an Add whose second
      operand is Immediate. */
  lemma DecodeExample()
    ensures Decode([1001, 1, 1, 1], 0) == Ok(Add(Position(1), Immediate(1), Position(1)))
  {
    var m := [1001, 1, 1, 1];
    assert Pow10(2) == 100 && Pow10(3) == 1000 && Pow10(4) == 10000;
    assert TruncRem(1001, 100) == 1;
    assert ParseMod(m, 0, 0) == Ok(Position(1));
    assert ParseMod(m, 0, 1) == Ok(Immediate(1));
    assert ParseMod(m, 0, 2) == Ok(Position(1));
  }

  /** Halt, input and output words decode; an empty memory has no instruction. */
  lemma DecodeShortExamples()
    ensures Decode([99], 0) == Ok(Hlt)
    ensures Decode([3, 1], 0) == Ok(Input(Position(1)))
    ensures Decode([4, 1], 0) == Ok(Output(Position(1)))
    ensures Decode([], 0).Err?
  {
    assert Pow10(2) == 100;
  }

  // ---------------------------------------------------------------------------
  // Memory and operand resolution
  // ---------------------------------------------------------------------------

  /** `ensure_min` on a non-empty vector: grow to hold index `len`, filling
      with `value`. */
  function Grown(v: seq<int>, len: nat, value: int): (r: seq<int>)
    requires |v| > 0
    ensures |r| == if |v| > len then |v| else len + 1
    ensures r[..|v|] == v
    ensures forall i | |v| <= i < |r| :: r[i] == value
  {
    if |v| - 1 > len then v else v + seq(len + 1 - |v|, _ => value)
  }

  /** `Mod::index`: the address an operand designates. */
  function Index(m: Mod, relativeBase: nat): Result<nat, Fault> {
    match m
    case Immediate(_) => Err(ImmediateIndex)
    case Position(a) => Ok(a)
    case Relative(o) =>
      if o + relativeBase >= 0 then Ok(o + relativeBase) else Err(NegativeAddress(o + relativeBase))
  }

  /** `Mod::read`: an Immediate is its own value; any other operand is the
      cell at its address, which must already exist (reads never grow). */
  function Read(m: Mod, mem: seq<int>, relativeBase: nat): (r: Result<int, Fault>)
    ensures m.Immediate? ==> r == Ok(m.value)
    ensures !m.Immediate? ==>
      (r.Ok? <==> Index(m, relativeBase).Ok? && Index(m, relativeBase).value < |mem|)
    ensures !m.Immediate? && r.Ok? ==> r.value == mem[Index(m, relativeBase).value]
  {
    match m
    case Immediate(v) => Ok(v)
    case _ =>
      match Index(m, relativeBase)
      case Err(f) => Err(f)
      case Ok(idx) => if idx < |mem| then Ok(mem[idx]) else Err(OutOfBounds(idx))
  }

  // ---------------------------------------------------------------------------
  // The I/O bus
  // ---------------------------------------------------------------------------

  /** What a bus answers to an Input instruction: a value, no value (the run
      returns), or a panic; with the bus's next state. */
  datatype InputReply<S> = Given(value: int, next: S) | Unavailable(next: S) | InputPanic

  /** What a bus answers to an Output instruction: carry on, stop the run, or
      a panic; with the bus's next state. */
  datatype OutputReply<S> = Proceed(next: S) | StopRequested(next: S) | OutputPanic

  /** The `IoBus` trait: its two operations over a bus state `S`. */
  datatype IoBus<!S> = IoBus(input: S -> InputReply<S>, output: (S, int) -> OutputReply<S>)

  /** `NoIoBusImpl`: refuses all I/O, by panicking or by stopping the run. */
  datatype NoIoBusImpl = NoIoBusImpl(panic: bool)

  /** `NoIoBusImpl::default()` panics on any I/O. */
  function NoIoDefault(): NoIoBusImpl {
    NoIoBusImpl(true)
  }

  function NoIoInput(b: NoIoBusImpl): (r: InputReply<NoIoBusImpl>)
    ensures b.panic <==> r.InputPanic?
    ensures !r.InputPanic? ==> r == Unavailable(b)
  {
    if b.panic then InputPanic else Unavailable(b)
  }

  function NoIoOutput(b: NoIoBusImpl, value: int): (r: OutputReply<NoIoBusImpl>)
    ensures b.panic <==> r.OutputPanic?
    ensures !r.OutputPanic? ==> r == StopRequested(b)
  {
    if b.panic then OutputPanic else StopRequested(b)
  }

  function NoIo(): IoBus<NoIoBusImpl> {
    IoBus(NoIoInput, NoIoOutput)
  }

  // ---------------------------------------------------------------------------
  // One step of the machine
  // ---------------------------------------------------------------------------

  /** The result of one instruction: the run goes on from the new state, or
      the run returns (with `has_halted` set) in that state. */
  datatype Effect<S> =
    | Next(mem: seq<int>, pc: nat, relativeBase: nat, bus: S)
    | Stop(mem: seq<int>, pc: nat, relativeBase: nat, bus: S)

  /** Add and Mul: grow memory to hold the destination, then store the sum or
      the product of the two operands read from the grown memory. */
  function Arith<S>(instr: Instr, mem: seq<int>, pc: nat, rb: nat, bus: S): Result<Effect<S>, Fault>
    requires instr.Add? || instr.Mul?
    requires |mem| > 0
  {
    var (a, b, d) := if instr.Add? then (instr.augend, instr.addend, instr.sum)
                     else (instr.multiplicand, instr.multiplier, instr.product);
    var idx :- Index(d, rb);
    var grown := Grown(mem, idx, 0);
    var x :- Read(a, grown, rb);
    var y :- Read(b, grown, rb);
    Ok(Next(grown[idx := if instr.Add? then x + y else x * y], pc + Size(instr), rb, bus))
  }

  /** Input: ask the bus; no value makes the run return at this instruction. */
  function DoInput<S>(dst: Mod, mem: seq<int>, pc: nat, rb: nat, bus: S, io: IoBus<S>): Result<Effect<S>, Fault>
    requires |mem| > 0
  {
    match io.input(bus)
    case Unavailable(next) => Ok(Stop(mem, pc, rb, next))
    case InputPanic => Err(IoRefused)
    case Given(v, next) =>
      var idx :- Index(dst, rb);
      var grown := Grown(mem, idx, 0);
      Ok(Next(grown[idx := v], pc + Size(Input(dst)), rb, next))
  }

  /** Output: hand the operand's value to the bus, which may stop the run at
      this instruction. */
  function DoOutput<S>(cell: Mod, mem: seq<int>, pc: nat, rb: nat, bus: S, io: IoBus<S>): Result<Effect<S>, Fault> {
    var v :- Read(cell, mem, rb);
    match io.output(bus, v)
    case StopRequested(next) => Ok(Stop(mem, pc, rb, next))
    case OutputPanic => Err(IoRefused)
    case Proceed(next) => Ok(Next(mem, pc + Size(Output(cell)), rb, next))
  }

  /** JNZ and JZ: a taken jump sets pc to the target operand's value. */
  function Jump<S>(instr: Instr, mem: seq<int>, pc: nat, rb: nat, bus: S): Result<Effect<S>, Fault>
    requires instr.JNZ? || instr.JZ?
  {
    var v :- Read(instr.cond, mem, rb);
    if (v != 0) == instr.JNZ? then
      var t :- Read(instr.target, mem, rb);
      if t < 0 then Err(NegativeJump(t)) else Ok(Next(mem, t, rb, bus))
    else Ok(Next(mem, pc + Size(instr), rb, bus))
  }

  /** LT and EQ: store 1 or 0 at the address given by the third operand's
      value, which must already exist. */
  function Compare<S>(instr: Instr, mem: seq<int>, pc: nat, rb: nat, bus: S): Result<Effect<S>, Fault>
    requires instr.LT? || instr.EQ?
  {
    var x :- Read(instr.lhs, mem, rb);
    var y :- Read(instr.rhs, mem, rb);
    var out :- Read(instr.dst, mem, rb);
    var holds := if instr.LT? then x < y else x == y;
    if out < 0 then Err(NegativeAddress(out))
    else if out >= |mem| then Err(OutOfBounds(out))
    else Ok(Next(mem[out := if holds then 1 else 0], pc + Size(instr), rb, bus))
  }

  /** ModRelBas: the operand's value becomes the relative base. */
  function SetBase<S>(base: Mod, mem: seq<int>, pc: nat, rb: nat, bus: S): Result<Effect<S>, Fault> {
    var v :- Read(base, mem, rb);
    if v < 0 then Err(NegativeBase(v)) else Ok(Next(mem, pc + Size(ModRelBas(base)), v, bus))
  }

  /** The body of the loop in `run` for one decoded instruction. */
  function Apply<S>(instr: Instr, mem: seq<int>, pc: nat, rb: nat, bus: S, io: IoBus<S>): Result<Effect<S>, Fault>
    requires |mem| > 0
  {
    match instr
    case Hlt => Ok(Stop(mem, pc, rb, bus))
    case Add(_, _, _) => Arith(instr, mem, pc, rb, bus)
    case Mul(_, _, _) => Arith(instr, mem, pc, rb, bus)
    case Input(dst) => DoInput(dst, mem, pc, rb, bus, io)
    case Output(cell) => DoOutput(cell, mem, pc, rb, bus, io)
    case JNZ(_, _) => Jump(instr, mem, pc, rb, bus)
    case JZ(_, _) => Jump(instr, mem, pc, rb, bus)
    case LT(_, _, _) => Compare(instr, mem, pc, rb, bus)
    case EQ(_, _, _) => Compare(instr, mem, pc, rb, bus)
    case ModRelBas(base) => SetBase(base, mem, pc, rb, bus)
  }

  /** Fetch, decode and execute the instruction at `pc`. */
  function Step<S>(mem: seq<int>, pc: nat, rb: nat, bus: S, io: IoBus<S>): Result<Effect<S>, Fault> {
    var instr :- Decode(mem, pc);
    Apply(instr, mem, pc, rb, bus, io)
  }

  // ---------------------------------------------------------------------------
  // The run
  // ---------------------------------------------------------------------------

  /** `RunResult`: the registers when `run` returns. */
  datatype RunResult = RunResult(pc: nat, relativeBase: nat, hasHalted: bool)

  /** How a run bounded by `fuel` instructions ends: it returned (with the
      memory and the bus it left behind), it panicked, or the bound ran out
      first (a Rust run would still be going). */
  datatype Outcome<S> =
    | Returned(result: RunResult, mem: seq<int>, bus: S)
    | Crashed(fault: Fault)
    | OutOfFuel(pc: nat, relativeBase: nat, mem: seq<int>, bus: S)

  /** Why a caller of `run` has no answer: the run panicked, or it was still
      going when the instruction bound ran out. */
  datatype Failure = Panicked(fault: Fault) | Unfinished

  /** `run` from registers (pc, rb), executing at most `fuel` instructions. */
  function Exec<S>(mem: seq<int>, pc: nat, rb: nat, bus: S, io: IoBus<S>, fuel: nat): Outcome<S>
    decreases fuel, 2
  {
    if fuel == 0 then OutOfFuel(pc, rb, mem, bus) else Fetch(mem, pc, rb, bus, io, fuel)
  }

  /** The bounded run once an instruction may still execute: decode it. */
  function Fetch<S>(mem: seq<int>, pc: nat, rb: nat, bus: S, io: IoBus<S>, fuel: nat): Outcome<S>
    requires fuel > 0
    decreases fuel, 1
  {
    match Decode(mem, pc)
    case Err(f) => Crashed(f)
    case Ok(instr) => Resume(instr, mem, pc, rb, bus, io, fuel)
  }

  /** The bounded run once the instruction at `pc` is decoded: execute it,
      then return or go on. */
  function Resume<S>(instr: Instr, mem: seq<int>, pc: nat, rb: nat, bus: S, io: IoBus<S>, fuel: nat): Outcome<S>
    requires fuel > 0 && |mem| > 0
    decreases fuel, 0
  {
    match Apply(instr, mem, pc, rb, bus, io)
    case Err(f) => Crashed(f)
    case Ok(Stop(m, p, r, b)) => Returned(RunResult(p, r, true), m, b)
    case Ok(Next(m, p, r, b)) => Exec(m, p, r, b, io, fuel - 1)
  }

  /** One turn of the loop in `run`: what executing a decoded instruction means
      for the bounded run from the same registers. */
  lemma ExecStep<S>(mem: seq<int>, pc: nat, rb: nat, bus: S, io: IoBus<S>, fuel: nat,
                    instr: Instr, effect: Result<Effect<S>, Fault>)
    requires fuel > 0 && |mem| > 0
    requires Decode(mem, pc) == Ok(instr)
    requires effect == Apply(instr, mem, pc, rb, bus, io)
    ensures effect.Err? ==> Exec(mem, pc, rb, bus, io, fuel) == Crashed(effect.error)
    ensures effect.Ok? && effect.value.Stop? ==>
      Exec(mem, pc, rb, bus, io, fuel)
        == Returned(RunResult(effect.value.pc, effect.value.relativeBase, true), effect.value.mem, effect.value.bus)
    ensures effect.Ok? && effect.value.Next? ==>
      Exec(mem, pc, rb, bus, io, fuel)
        == Exec(effect.value.mem, effect.value.pc, effect.value.relativeBase, effect.value.bus, io, fuel - 1)
  {
    assert Exec(mem, pc, rb, bus, io, fuel) == Resume(instr, mem, pc, rb, bus, io, fuel);
  }

  /** What the values a bounded run emits are, given its first instruction:
      that instruction's output, then (if the run goes on) the rest. */
  lemma EmittedStep<S>(mem: seq<int>, pc: nat, rb: nat, bus: S, io: IoBus<S>, fuel: nat,
                       instr: Instr, effect: Result<Effect<S>, Fault>)
    requires fuel > 0 && |mem| > 0
    requires Decode(mem, pc) == Ok(instr)
    requires effect == Apply(instr, mem, pc, rb, bus, io)
    ensures effect.Ok? && effect.value.Next? ==>
      Emitted(mem, pc, rb, bus, io, fuel)
        == OutputAt(mem, pc, rb) + Emitted(effect.value.mem, effect.value.pc, effect.value.relativeBase, effect.value.bus, io, fuel - 1)
    ensures !(effect.Ok? && effect.value.Next?) ==> Emitted(mem, pc, rb, bus, io, fuel) == OutputAt(mem, pc, rb)
  {
    assert Emitted(mem, pc, rb, bus, io, fuel) == EmittedAfter(instr, mem, pc, rb, bus, io, fuel);
  }

  /** A bounded run whose first instruction does not decode panics. */
  lemma ExecUndecodable<S>(mem: seq<int>, pc: nat, rb: nat, bus: S, io: IoBus<S>, fuel: nat)
    requires fuel > 0 && Decode(mem, pc).Err?
    ensures Exec(mem, pc, rb, bus, io, fuel) == Crashed(Decode(mem, pc).error)
  {
  }

  /** The value an instruction hands to the bus's output, if it is an Output
      whose operand can be read. */
  function OutputAt(mem: seq<int>, pc: nat, rb: nat): seq<int> {
    match Decode(mem, pc)
    case Ok(Output(c)) => (match Read(c, mem, rb) case Ok(v) => [v] case Err(_) => [])
    case _ => []
  }

  /** The values a bounded run hands to the bus's output, in order. */
  function Emitted<S>(mem: seq<int>, pc: nat, rb: nat, bus: S, io: IoBus<S>, fuel: nat): seq<int>
    decreases fuel, 2
  {
    if fuel == 0 then [] else EmittedFrom(mem, pc, rb, bus, io, fuel)
  }

  /** The values emitted once an instruction may still execute. */
  function EmittedFrom<S>(mem: seq<int>, pc: nat, rb: nat, bus: S, io: IoBus<S>, fuel: nat): seq<int>
    requires fuel > 0
    decreases fuel, 1
  {
    match Decode(mem, pc)
    case Err(_) => []
    case Ok(instr) => EmittedAfter(instr, mem, pc, rb, bus, io, fuel)
  }

  /** The values emitted by the decoded instruction at `pc` and the rest of
      the run after it. */
  function EmittedAfter<S>(instr: Instr, mem: seq<int>, pc: nat, rb: nat, bus: S, io: IoBus<S>, fuel: nat): seq<int>
    requires fuel > 0 && |mem| > 0
    decreases fuel, 0
  {
    match Apply(instr, mem, pc, rb, bus, io)
    case Ok(Next(m, p, r, b)) => OutputAt(mem, pc, rb) + Emitted(m, p, r, b, io, fuel - 1)
    case _ => OutputAt(mem, pc, rb)
  }

  /** The program vector that `run` mutates in place. */
  class Memory {
    var cells: seq<int>

    constructor (program: seq<int>)
      ensures cells == program
    {
      cells := program;
    }

    /** `ensure_min`: grow so that index `len` exists, new cells `value`. */
    method EnsureMin(len: nat, value: int)
      requires |cells| > 0
      modifies this
      ensures cells == Grown(old(cells), len, value)
    {
      if |cells| - 1 > len {
        return;
      }
      cells := cells + seq(len + 1 - |cells|, _ => value);
    }
  }

  /** The body of the loop in `run` for one decoded instruction: update
      `program` in place and say how the run goes on.  `pc` is advanced by the
      instruction's size except after a taken jump and when the run returns. */
  method Execute<S>(program: Memory, instr: Instr, pc: nat, rb: nat, bus: S, io: IoBus<S>)
    returns (effect: Result<Effect<S>, Fault>)
    requires |program.cells| > 0
    modifies program
    ensures effect == Apply(instr, old(program.cells), pc, rb, bus, io)
    ensures effect.Ok? ==> program.cells == effect.value.mem
  {
    var inc := true;
    var stop := false;
    var state := bus;
    var next, base := pc, rb;
    match instr {
      case Hlt =>
        stop := true;
      case Add(augend, addend, sum) =>
        var idx := Index(sum, rb);
        if idx.Err? {
          return Err(idx.error);
        }
        program.EnsureMin(idx.value, 0);
        var x := Read(augend, program.cells, rb);
        if x.Err? {
          return Err(x.error);
        }
        var y := Read(addend, program.cells, rb);
        if y.Err? {
          return Err(y.error);
        }
        program.cells := program.cells[idx.value := x.value + y.value];
      case Mul(multiplicand, multiplier, product) =>
        var idx := Index(product, rb);
        if idx.Err? {
          return Err(idx.error);
        }
        program.EnsureMin(idx.value, 0);
        var x := Read(multiplicand, program.cells, rb);
        if x.Err? {
          return Err(x.error);
        }
        var y := Read(multiplier, program.cells, rb);
        if y.Err? {
          return Err(y.error);
        }
        program.cells := program.cells[idx.value := x.value * y.value];
      case Input(dst) =>
        match io.input(bus) {
          case Unavailable(b) =>
            state := b;
            stop := true;
          case InputPanic =>
            return Err(IoRefused);
          case Given(v, b) =>
            state := b;
            var idx := Index(dst, rb);
            if idx.Err? {
              return Err(idx.error);
            }
            program.EnsureMin(idx.value, 0);
            program.cells := program.cells[idx.value := v];
        }
      case Output(cell) =>
        var value := Read(cell, program.cells, rb);
        if value.Err? {
          return Err(value.error);
        }
        match io.output(bus, value.value) {
          case StopRequested(b) =>
            state := b;
            stop := true;
          case OutputPanic =>
            return Err(IoRefused);
          case Proceed(b) =>
            state := b;
        }
      case JNZ(cond, target) =>
        var value := Read(cond, program.cells, rb);
        if value.Err? {
          return Err(value.error);
        }
        if value.value != 0 {
          inc := false;
          var t := Read(target, program.cells, rb);
          if t.Err? {
            return Err(t.error);
          }
          if t.value < 0 {
            return Err(NegativeJump(t.value));
          }
          next := t.value;
        }
      case JZ(cond, target) =>
        var value := Read(cond, program.cells, rb);
        if value.Err? {
          return Err(value.error);
        }
        if value.value == 0 {
          inc := false;
          var t := Read(target, program.cells, rb);
          if t.Err? {
            return Err(t.error);
          }
          if t.value < 0 {
            return Err(NegativeJump(t.value));
          }
          next := t.value;
        }
      case LT(lhs, rhs, dst) =>
        var x := Read(lhs, program.cells, rb);
        if x.Err? {
          return Err(x.error);
        }
        var y := Read(rhs, program.cells, rb);
        if y.Err? {
          return Err(y.error);
        }
        var out := Read(dst, program.cells, rb);
        if out.Err? {
          return Err(out.error);
        }
        if out.value < 0 {
          return Err(NegativeAddress(out.value));
        }
        if out.value >= |program.cells| {
          return Err(OutOfBounds(out.value));
        }
        program.cells := program.cells[out.value := if x.value < y.value then 1 else 0];
      case EQ(lhs, rhs, dst) =>
        var x := Read(lhs, program.cells, rb);
        if x.Err? {
          return Err(x.error);
        }
        var y := Read(rhs, program.cells, rb);
        if y.Err? {
          return Err(y.error);
        }
        var out := Read(dst, program.cells, rb);
        if out.Err? {
          return Err(out.error);
        }
        if out.value < 0 {
          return Err(NegativeAddress(out.value));
        }
        if out.value >= |program.cells| {
          return Err(OutOfBounds(out.value));
        }
        program.cells := program.cells[out.value := if x.value == y.value then 1 else 0];
      case ModRelBas(b) =>
        var value := Read(b, program.cells, rb);
        if value.Err? {
          return Err(value.error);
        }
        if value.value < 0 {
          return Err(NegativeBase(value.value));
        }
        base := value.value;
    }
    if stop {
      effect := Ok(Stop(program.cells, pc, rb, state));
    } else {
      if inc {
        next := pc + Size(instr);
      }
      effect := Ok(Next(program.cells, next, base, state));
    }
  }

  /** One turn of the loop in `run`: fetch, decode and execute the instruction
      at `pc`, and say what that means for the bounded run from here. */
  method Advance<S>(program: Memory, pc: nat, rb: nat, bus: S, io: IoBus<S>, ghost fuel: nat)
    returns (effect: Result<Effect<S>, Fault>)
    requires fuel > 0
    modifies program
    ensures effect.Ok? ==> program.cells == effect.value.mem
    ensures effect.Err? ==> Exec(old(program.cells), pc, rb, bus, io, fuel) == Crashed(effect.error)
    ensures effect.Ok? && effect.value.Stop? ==>
      Exec(old(program.cells), pc, rb, bus, io, fuel)
        == Returned(RunResult(effect.value.pc, effect.value.relativeBase, true), effect.value.mem, effect.value.bus)
    ensures effect.Ok? && effect.value.Next? ==>
      Exec(old(program.cells), pc, rb, bus, io, fuel)
        == Exec(effect.value.mem, effect.value.pc, effect.value.relativeBase, effect.value.bus, io, fuel - 1)
  {
    ghost var cells := program.cells;
    var instr := Decode(program.cells, pc);
    if instr.Err? {
      ExecUndecodable(cells, pc, rb, bus, io, fuel);
      return Err(instr.error);
    }
    effect := Execute(program, instr.value, pc, rb, bus, io);
    ExecStep(cells, pc, rb, bus, io, fuel, instr.value, effect);
  }

  /** `run`: execute from (pc, relativeBase) until the machine halts, the bus
      asks it to stop, or it panics, mutating `program` in place; at most
      `fuel` instructions are executed. */
  method Run<S>(program: Memory, pc: nat, relativeBase: nat, bus: S, io: IoBus<S>, fuel: nat)
    returns (outcome: Outcome<S>)
    modifies program
    ensures outcome == Exec(old(program.cells), pc, relativeBase, bus, io, fuel)
    ensures !outcome.Crashed? ==> program.cells == outcome.mem
  {
    ghost var goal := Exec(program.cells, pc, relativeBase, bus, io, fuel);
    var at, base, state, left := pc, relativeBase, bus, fuel;
    while left > 0
      invariant goal == Exec(program.cells, at, base, state, io, left)
    {
      var effect := Advance(program, at, base, state, io, left);
      if effect.Err? {
        return Crashed(effect.error);
      }
      if effect.value.Stop? {
        return Returned(RunResult(effect.value.pc, effect.value.relativeBase, true), program.cells, effect.value.bus);
      }
      at, base, state, left := effect.value.pc, effect.value.relativeBase, effect.value.bus, left - 1;
    }
    outcome := OutOfFuel(at, base, program.cells, state);
  }
}
