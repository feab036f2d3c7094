/** Day 11 (src/day11.rs): the hull-painting robot.  The Intcode program
    reads the colour under the robot and outputs pairs (colour to paint,
    direction to turn); the robot then steps forward.  Part 1 counts the
    panels painted at least once. */
module Day11 {
  import opened Wrappers
  import opened Intcode
  import opened IntcodeRuns

  datatype Direction = Up | Left | Down | Right

  /** A quarter turn to the left. */
  function TurnLeft(d: Direction): Direction {
    match d
    case Up => Left
    case Left => Down
    case Down => Right
    case Right => Up
  }

  /** A quarter turn to the right. */
  function TurnRight(d: Direction): Direction {
    match d
    case Up => Right
    case Right => Down
    case Down => Left
    case Left => Up
  }

  /** One step in direction `d`: up is +y, left is -x. */
  function Walk(d: Direction, p: (int, int)): (int, int) {
    match d
    case Up => (p.0, p.1 + 1)
    case Left => (p.0 - 1, p.1)
    case Down => (p.0, p.1 - 1)
    case Right => (p.0 + 1, p.1)
  }

  /** The two turns undo each other; four turns the same way (and two turns
      either way) face the robot back and round. */
  lemma TurnLaws(d: Direction)
    ensures TurnRight(TurnLeft(d)) == d && TurnLeft(TurnRight(d)) == d
    ensures TurnLeft(TurnLeft(TurnLeft(TurnLeft(d)))) == d
    ensures TurnRight(TurnRight(TurnRight(TurnRight(d)))) == d
    ensures TurnLeft(TurnLeft(d)) == TurnRight(TurnRight(d)) != d
  {
  }

  /** A step moves one unit along one axis, and turning round and stepping
      again comes back. */
  lemma WalkLaws(d: Direction, p: (int, int))
    ensures var q := Walk(d, p); (q.0 - p.0) * (q.0 - p.0) + (q.1 - p.1) * (q.1 - p.1) == 1
    ensures Walk(TurnLeft(TurnLeft(d)), Walk(d, p)) == p
  {
  }

  /** `RobotBus`: the painted panels (true is white), the robot's position
      and heading, and whether the next output is a turn. */
  datatype RobotBus = RobotBus(grid: map<(int, int), bool>, coords: (int, int), direction: Direction, walking: bool)

  /** `RobotBus::default()`: nothing painted, at the origin facing up. */
  function DefaultRobot(): RobotBus {
    RobotBus(map[], (0, 0), Up, false)
  }

  /** Whether the panel under the robot is white; unpainted panels are black. */
  predicate OnWhite(b: RobotBus) {
    b.coords in b.grid && b.grid[b.coords]
  }

  function RobotInput(b: RobotBus): InputReply<RobotBus> {
    Given(if OnWhite(b) then 1 else 0, b)
  }

  /** The robot after one output: the first of a pair paints the panel under
      it (white iff the value is 1), the second turns (left iff 0) and steps. */
  function RobotStep(b: RobotBus, value: int): RobotBus {
    if !b.walking then b.(grid := b.grid[b.coords := value == 1], walking := true)
    else
      var d := if value == 0 then TurnLeft(b.direction) else TurnRight(b.direction);
      b.(direction := d, coords := Walk(d, b.coords), walking := false)
  }

  function RobotOutput(b: RobotBus, value: int): OutputReply<RobotBus> {
    Proceed(RobotStep(b, value))
  }

  function RobotIo(): IoBus<RobotBus> {
    IoBus(RobotInput, RobotOutput)
  }

  /** The whole bus state. */
  function Whole(b: RobotBus): RobotBus {
    b
  }

  /** The robot answers every Input with 1 on a white panel and 0 otherwise,
      without moving; it never stops the run; outputs alternate between a
      paint, which leaves position and heading alone, and a turn and step,
      which leaves the panels alone. */
  lemma RobotBusLaws()
    ensures AlwaysGives(RobotIo()) && NeverStops(RobotIo())
    ensures InputKeeps(RobotIo(), Whole) && OutputApplies(RobotIo(), Whole, RobotStep)
    ensures forall b: RobotBus :: RobotInput(b).value == (if OnWhite(b) then 1 else 0)
    ensures forall b: RobotBus, v: int :: RobotStep(b, v).walking == !b.walking
    ensures forall b: RobotBus, v: int | !b.walking ::
      && RobotStep(b, v).coords == b.coords && RobotStep(b, v).direction == b.direction
      && RobotStep(b, v).grid == b.grid[b.coords := v == 1]
    ensures forall b: RobotBus, v: int | b.walking ::
      && RobotStep(b, v).grid == b.grid
      && RobotStep(b, v).coords == Walk(RobotStep(b, v).direction, b.coords)
  {
  }

  /** The panels the robot paints while taking `values` as outputs, starting
      in state `b`. */
  function PaintedCells(b: RobotBus, values: seq<int>): set<(int, int)>
    decreases |values|
  {
    if |values| == 0 then {}
    else (if b.walking then {} else {b.coords}) + PaintedCells(RobotStep(b, values[0]), values[1..])
  }

  /** After `values`, the panels with a colour are those that had one and
      those painted on the way. */
  lemma {:induction false} ReplayPaints(b: RobotBus, values: seq<int>)
    ensures Replay(RobotStep, b, values).grid.Keys == b.grid.Keys + PaintedCells(b, values)
    decreases |values|
  {
    if |values| > 0 {
      ReplayPaints(RobotStep(b, values[0]), values[1..]);
    }
  }

  /** The number of panels with a colour once `run` returns. */
  function PaintedCount(program: seq<int>, fuel: nat): Result<nat, Failure> {
    match Exec(program, 0, 0, DefaultRobot(), RobotIo(), fuel)
    case Returned(_, _, b) => Ok(|b.grid|)
    case Crashed(f) => Err(Panicked(f))
    case OutOfFuel(_, _, _, _) => Err(Unfinished)
  }

  /** Part 1 counts exactly the distinct panels painted at the outputs of the
      run, which returns only at a Hlt. */
  lemma PaintedCountIsPaintedCells(program: seq<int>, fuel: nat)
    ensures var o := Exec(program, 0, 0, DefaultRobot(), RobotIo(), fuel);
      o.Returned? ==> Decode(o.mem, o.result.pc) == Ok(Hlt)
    ensures PaintedCount(program, fuel).Ok? ==>
      PaintedCount(program, fuel).value
        == |PaintedCells(DefaultRobot(), Emitted(program, 0, 0, DefaultRobot(), RobotIo(), fuel))|
  {
    var o := Exec(program, 0, 0, DefaultRobot(), RobotIo(), fuel);
    if o.Returned? {
      RobotBusLaws();
      ReturnedAtStop(program, 0, 0, DefaultRobot(), RobotIo(), fuel);
      var out := Emitted(program, 0, 0, DefaultRobot(), RobotIo(), fuel);
      ExecReplays(program, 0, 0, DefaultRobot(), RobotIo(), fuel, Whole, RobotStep);
      ReplayPaints(DefaultRobot(), out);
      assert o.bus.grid.Keys == PaintedCells(DefaultRobot(), out);
      assert |o.bus.grid| == |o.bus.grid.Keys|;
    }
  }

  /** `part1_impl1`: run a copy of the program with the default robot and
      count the panels in its grid. */
  method Part1(program: seq<int>, fuel: nat) returns (r: Result<nat, Failure>)
    ensures r == PaintedCount(program, fuel)
  {
    var memory := new Memory(program);
    var outcome := Run(memory, 0, 0, DefaultRobot(), RobotIo(), fuel);
    match outcome
    case Returned(_, _, b) => r := Ok(|b.grid|);
    case Crashed(f) => r := Err(Panicked(f));
    case OutOfFuel(_, _, _, _) => r := Err(Unfinished);
  }
}
