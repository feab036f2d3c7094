/** Day 3 (src/day3.rs): two wires laid out on a grid from a common origin,
    and the points where segments of different wires intersect. */
module Day3 {
  import opened Wrappers
  import Intcode

  type Point = (int, int)

  /** A `Matrix2x2`: two rows of two numbers.  It serves both as a 2x2 matrix
      and as a segment given by its two end points. */
  type Matrix = (Point, Point)

  type Segment = Matrix

  /** A `Matrix2x2<Matrix2x2>`: a 2x2 matrix of 2x2 matrices. */
  type Block = ((Matrix, Matrix), (Matrix, Matrix))

  type Wire = seq<Segment>

  /** One step of a wire's path, already parsed: its direction letter and its
      length. */
  type Path = (char, int)

  /** `WireIntersection`: the two wires involved and the point recorded. */
  datatype WireIntersection = WireIntersection(wires: (Wire, Wire), point: Point)

  /** The program's panics: a path letter that is not a direction, and
      part 1 on an empty list of intersections. */
  datatype Day3Failure = UnknownDirection(direction: char) | NoIntersections

  const Origin: Point := (0, 0)

  function Abs(x: int): nat {
    if x < 0 then -x else x
  }

  /** Rust's `/` on `isize`: the quotient rounded toward zero, for a divisor
      of either sign (Dafny's `/` is Euclidean). */
  function Quot(a: int, d: int): int
    requires d != 0
  {
    if (a < 0) == (d < 0) then Abs(a) / Abs(d) else -(Abs(a) / Abs(d))
  }

  /** Dividing a multiple of the divisor is exact, whatever the signs. */
  lemma QuotExact(k: int, d: int)
    requires d != 0
    ensures Quot(k * d, d) == k
  {
    if k < 0 && d < 0 {
      assert k * d == (-k) * (-d);
    } else if k < 0 {
      assert k * d == -((-k) * d);
    } else if d < 0 {
      assert k * d == -(k * (-d));
    }
    assert Abs(k * d) == Abs(k) * Abs(d);
    Intcode.DivUnique(Abs(k) * Abs(d), Abs(d), Abs(k), 0);
  }

  // ---------------------------------------------------------------------
  // Determinants and the line-line intersection

  /** `det`: the determinant of a 2x2 matrix. */
  function Det(m: Matrix): int {
    m.0.0 * m.1.1 - m.1.0 * m.0.1
  }

  /** The determinant changes sign when the rows are swapped and vanishes
      when they are equal ("a line^2 is always 0"); rows `(a, 1)` and
      `(b, 1)` give `a - b`. */
  lemma DetLaws(m: Matrix)
    ensures Det((m.1, m.0)) == -Det(m)
    ensures Det((m.0, m.0)) == 0
    ensures Det(((m.0.0, 1), (m.1.0, 1))) == m.0.0 - m.1.0
  {
  }

  /** `determinant`: the determinant of the matrix of the four inner
      determinants. */
  function Determinant(b: Block): int {
    Det(((Det(b.0.0), Det(b.0.1)), (Det(b.1.0), Det(b.1.1))))
  }

  /** The vector from the first end point of a segment to the second. */
  function Direction(s: Segment): Point {
    (s.1.0 - s.0.0, s.1.1 - s.0.1)
  }

  /** The cross product of two vectors: 0 exactly when they are parallel
      (or one of them is zero). */
  function Cross(u: Point, v: Point): int {
    u.0 * v.1 - u.1 * v.0
  }

  /** `pl_x` (and `pl_y`, the identical expression). */
  function Denominator(s: Segment, o: Segment): int {
    var ((x0, y0), (x1, y1)) := s;
    var ((x2, y2), (x3, y3)) := o;
    Determinant(((((x0, 1), (x1, 1)), ((y0, 1), (y1, 1))), (((x2, 1), (x3, 1)), ((y2, 1), (y3, 1)))))
  }

  /** `pu_x`. */
  function NumeratorX(s: Segment, o: Segment): int {
    var ((x0, y0), (x1, y1)) := s;
    var ((x2, y2), (x3, y3)) := o;
    Determinant(((((x0, y0), (x1, y1)), ((x0, 1), (x1, 1))), (((x2, y2), (x3, y3)), ((x2, 1), (x3, 1)))))
  }

  /** `pu_y`. */
  function NumeratorY(s: Segment, o: Segment): int {
    var ((x0, y0), (x1, y1)) := s;
    var ((x2, y2), (x3, y3)) := o;
    Determinant(((((x0, y0), (x1, y1)), ((y0, 1), (y1, 1))), (((x2, y2), (x3, y3)), ((y2, 1), (y3, 1)))))
  }

  /** The denominator is the cross product of the two segments' directions;
      each numerator combines the determinants of the two segments with
      the segments' extents along one axis. */
  lemma ClosedForms(s: Segment, o: Segment)
    ensures Denominator(s, o) == Cross(Direction(s), Direction(o))
    ensures NumeratorX(s, o) == Det(s) * (o.0.0 - o.1.0) - Det(o) * (s.0.0 - s.1.0)
    ensures NumeratorY(s, o) == Det(s) * (o.0.1 - o.1.1) - Det(o) * (s.0.1 - s.1.1)
  {
  }

  /** `intersection`: the point where the LINES through the two segments
      meet, each coordinate divided toward zero; `None` when the denominator
      is 0.  Whether the point lies on either segment is not checked. */
  function Intersection(s: Segment, o: Segment): (r: Option<Point>)
    ensures r.None? <==> Cross(Direction(s), Direction(o)) == 0
  {
    ClosedForms(s, o);
    var pl := Denominator(s, o);
    if pl == 0 then None
    else Some((Quot(NumeratorX(s, o), pl), Quot(NumeratorY(s, o), pl)))
  }

  /** `p` lies on the line through the segment `s`. */
  predicate OnLine(p: Point, s: Segment) {
    Cross(Direction(s), (p.0 - s.0.0, p.1 - s.0.1)) == 0
  }

  /** The numerators and the denominator are the homogeneous coordinates of
      a point on both lines: scaled by the denominator, the point satisfies
      each line's equation. */
  lemma HomogeneousOnLines(s: Segment, o: Segment)
    ensures var pl := Denominator(s, o);
      Cross(Direction(s), (NumeratorX(s, o) - pl * s.0.0, NumeratorY(s, o) - pl * s.0.1)) == 0
    ensures var pl := Denominator(s, o);
      Cross(Direction(o), (NumeratorX(s, o) - pl * o.0.0, NumeratorY(s, o) - pl * o.0.1)) == 0
  {
    ClosedForms(s, o);
    var ((x0, y0), (x1, y1)) := s;
    var ((x2, y2), (x3, y3)) := o;
    assert Det(s) == (x0 - x1) * y0 - (y0 - y1) * x0;
    assert Det(o) == (x2 - x3) * y2 - (y2 - y3) * x2;
    Factor(x0 - x1, y0 - y1, x2 - x3, y2 - y3, x0, y0, Det(o));
    Factor(x2 - x3, y2 - y3, x0 - x1, y0 - y1, x2, y2, Det(s));
    ParallelCross(x0 - x1, y0 - y1, y0 * (x2 - x3) - Det(o) - x0 * (y2 - y3));
    ParallelCross(x2 - x3, y2 - y3, -(y2 * (x0 - x1) - Det(s) - x2 * (y0 - y1)));
  }

  /** With `(dx, dy)` the direction of a segment through `(x0, y0)` (so
      that its determinant is `dx * y0 - dy * x0`), `(ex, ey)` the direction
      of the other and `d2` its determinant, the point the numerators
      describe, taken relative to `(x0, y0)`, is a multiple of `(dx, dy)`. */
  lemma Factor(dx: int, dy: int, ex: int, ey: int, x0: int, y0: int, d2: int)
    ensures var d1 := dx * y0 - dy * x0;
      var pl := dx * ey - ex * dy;
      var k := y0 * ex - d2 - x0 * ey;
      && (d1 * ex - d2 * dx) - pl * x0 == dx * k
      && (d1 * ey - d2 * dy) - pl * y0 == dy * k
  {
    assert (dx * y0 - dy * x0) * ex == dx * y0 * ex - dy * x0 * ex;
    assert (dx * y0 - dy * x0) * ey == dx * y0 * ey - dy * x0 * ey;
    assert (dx * ey - ex * dy) * x0 == dx * ey * x0 - ex * dy * x0;
    assert (dx * ey - ex * dy) * y0 == dx * ey * y0 - ex * dy * y0;
    assert dx * (y0 * ex - d2 - x0 * ey) == dx * y0 * ex - dx * d2 - dx * x0 * ey;
    assert dy * (y0 * ex - d2 - x0 * ey) == dy * y0 * ex - dy * d2 - dy * x0 * ey;
  }

  /** A vector is parallel to its own multiples. */
  lemma ParallelCross(dx: int, dy: int, k: int)
    ensures Cross((-dx, -dy), (dx * k, dy * k)) == 0
  {
    assert (-dx) * (dy * k) == -(dx * dy * k);
    assert (-dy) * (dx * k) == -(dx * dy * k);
  }

  /** When the division is exact, `intersection` answers the point where
      the two lines meet. */
  lemma ExactIntersectionIsOnBothLines(s: Segment, o: Segment, p: Point)
    requires Denominator(s, o) != 0
    requires NumeratorX(s, o) == p.0 * Denominator(s, o)
    requires NumeratorY(s, o) == p.1 * Denominator(s, o)
    ensures Intersection(s, o) == Some(p)
    ensures OnLine(p, s) && OnLine(p, o)
  {
    var pl := Denominator(s, o);
    QuotExact(p.0, pl);
    QuotExact(p.1, pl);
    HomogeneousOnLines(s, o);
    OnLineScaled(p, s, pl, NumeratorX(s, o), NumeratorY(s, o));
    OnLineScaled(p, o, pl, NumeratorX(s, o), NumeratorY(s, o));
  }

  /** A point whose multiple by a non-zero `k` satisfies the scaled line
      equation is on the line. */
  lemma OnLineScaled(p: Point, s: Segment, k: int, nx: int, ny: int)
    requires k != 0 && nx == p.0 * k && ny == p.1 * k
    requires Cross(Direction(s), (nx - k * s.0.0, ny - k * s.0.1)) == 0
    ensures OnLine(p, s)
  {
    var v := (p.0 - s.0.0, p.1 - s.0.1);
    assert (nx - k * s.0.0, ny - k * s.0.1) == (k * v.0, k * v.1);
    ScaledCross(Direction(s), v, k);
  }

  /** Scaling the second vector by a non-zero factor keeps the cross product
      zero or non-zero. */
  lemma ScaledCross(u: Point, v: Point, k: int)
    requires k != 0
    ensures Cross(u, (k * v.0, k * v.1)) == k * Cross(u, v)
    ensures Cross(u, (k * v.0, k * v.1)) == 0 <==> Cross(u, v) == 0
  {
    assert Cross(u, (k * v.0, k * v.1)) == k * Cross(u, v);
  }

  /** A horizontal and a vertical segment, both of non-zero length. */
  predicate Horizontal(s: Segment) {
    s.0.1 == s.1.1 && s.0.0 != s.1.0
  }

  predicate Vertical(s: Segment) {
    s.0.0 == s.1.0 && s.0.1 != s.1.1
  }

  /** On the segments a wire is made of, `intersection` is exact: a
      horizontal and a vertical segment give the point where their lines
      cross, wherever it is, and two horizontal or two vertical segments give
      `None`, even when they overlap. */
  lemma AxisIntersection(s: Segment, o: Segment)
    ensures Horizontal(s) && Vertical(o) ==> Intersection(s, o) == Some((o.0.0, s.0.1))
    ensures Vertical(s) && Horizontal(o) ==> Intersection(s, o) == Some((s.0.0, o.0.1))
    ensures (Horizontal(s) && Horizontal(o)) || (Vertical(s) && Vertical(o)) ==> Intersection(s, o) == None
  {
    var pl := Denominator(s, o);
    if Horizontal(s) && Vertical(o) {
      assert pl == (s.0.0 - s.1.0) * (o.0.1 - o.1.1);
      NonZeroProduct(s.0.0 - s.1.0, o.0.1 - o.1.1);
      assert NumeratorX(s, o) == o.0.0 * pl;
      assert NumeratorY(s, o) == s.0.1 * pl;
      ExactIntersectionIsOnBothLines(s, o, (o.0.0, s.0.1));
    } else if Vertical(s) && Horizontal(o) {
      assert pl == -((o.0.0 - o.1.0) * (s.0.1 - s.1.1));
      NonZeroProduct(o.0.0 - o.1.0, s.0.1 - s.1.1);
      assert NumeratorX(s, o) == s.0.0 * pl;
      assert NumeratorY(s, o) == o.0.1 * pl;
      ExactIntersectionIsOnBothLines(s, o, (s.0.0, o.0.1));
    }
  }

  lemma NonZeroProduct(a: int, b: int)
    requires a != 0 && b != 0
    ensures a * b != 0
  {
    if a > 0 && b > 0 {
    } else if a < 0 && b < 0 {
      assert a * b == (-a) * (-b);
    } else if a < 0 {
      assert a * b == -((-a) * b);
    } else {
      assert a * b == -(a * (-b));
    }
  }

  /** The tests of `intersection` on crossing lines; the last pair meets at
      (2.5, 2.5), rounded toward zero. */
  lemma IntersectionExamples()
    ensures Intersection(((-2, 0), (2, 0)), ((0, 2), (0, -2))) == Some((0, 0))
    ensures Intersection(((-2, -2), (2, 2)), ((-2, 2), (2, -2))) == Some((0, 0))
    ensures Intersection(((1, 1), (4, 4)), ((4, 1), (1, 4))) == Some((2, 2))
  {
    AxisIntersection(((-2, 0), (2, 0)), ((0, 2), (0, -2)));
    ExactIntersectionIsOnBothLines(((-2, -2), (2, 2)), ((-2, 2), (2, -2)), (0, 0));
    assert Denominator(((1, 1), (4, 4)), ((4, 1), (1, 4))) == 18;
    assert NumeratorX(((1, 1), (4, 4)), ((4, 1), (1, 4))) == 45;
    assert NumeratorY(((1, 1), (4, 4)), ((4, 1), (1, 4))) == 45;
    assert Quot(45, 18) == 2;
  }

  /** The tests of `intersection` on parallel lines, the same line twice,
      and collinear segments sharing an end point. */
  lemma ParallelExamples()
    ensures Intersection(((-2, 2), (2, -2)), ((-3, 3), (3, -3))) == None
    ensures Intersection(((-2, 2), (2, -2)), ((-2, 2), (2, -2))) == None
    ensures Intersection(((-2, 0), (0, 0)), ((0, 0), (2, 0))) == None
    ensures Intersection(((0, 0), (2, 2)), ((1, 1), (-1, -1))) == None
  {
  }

  // ---------------------------------------------------------------------
  // Laying out the wires

  /** The four letters `gen` understands. */
  predicate Known(d: char) {
    d == 'U' || d == 'D' || d == 'L' || d == 'R'
  }

  /** Where one step of a path ends when it starts at `c`: `U` adds the
      length to y and `D` subtracts it, `L` adds it to x and `R` subtracts
      it; any other letter is not a direction. */
  function Step(c: Point, p: Path): (r: Option<Point>)
    ensures r.Some? <==> Known(p.0)
    ensures r.Some? ==> r.value.0 == c.0 || r.value.1 == c.1
    ensures r.Some? ==> Abs(r.value.0 - c.0) + Abs(r.value.1 - c.1) == Abs(p.1)
  {
    match p.0
    case 'U' => Some((c.0, c.1 + p.1))
    case 'D' => Some((c.0, c.1 - p.1))
    case 'L' => Some((c.0 + p.1, c.1))
    case 'R' => Some((c.0 - p.1, c.1))
    case _ => None
  }

  /** The segments of a wire whose path starts at `start`; the first unknown
      letter is an error. */
  function TraceFrom(start: Point, paths: seq<Path>): (r: Result<Wire, Day3Failure>)
    ensures r.Ok? ==> |r.value| == |paths|
    decreases |paths|
  {
    if |paths| == 0 then Ok([])
    else match Step(start, paths[0])
      case None => Err(UnknownDirection(paths[0].0))
      case Some(next) =>
        var rest :- TraceFrom(next, paths[1..]);
        Ok([(start, next)] + rest)
  }

  /** A traced wire is a chain: it starts at the start point, each segment
      starts where the previous one ended, and each segment is the step its
      path describes. */
  lemma {:induction false} TraceShape(start: Point, paths: seq<Path>)
    requires TraceFrom(start, paths).Ok?
    ensures var w := TraceFrom(start, paths).value;
      |w| > 0 ==> w[0].0 == start
    ensures var w := TraceFrom(start, paths).value;
      forall k | 0 <= k < |w| - 1 :: w[k].1 == w[k + 1].0
    ensures var w := TraceFrom(start, paths).value;
      forall k | 0 <= k < |w| :: Step(w[k].0, paths[k]) == Some(w[k].1)
    decreases |paths|
  {
    if |paths| > 0 {
      var next := Step(start, paths[0]).value;
      TraceShape(next, paths[1..]);
      var rest := TraceFrom(next, paths[1..]).value;
      var w := TraceFrom(start, paths).value;
      assert w == [(start, next)] + rest;
      forall k | 1 <= k < |w|
        ensures Step(w[k].0, paths[k]) == Some(w[k].1)
      {
        assert w[k] == rest[k - 1] && paths[k] == paths[1..][k - 1];
      }
    }
  }

  /** Tracing fails exactly when some step has an unknown letter, and then
      names the first such letter. */
  lemma {:induction false} TraceFails(start: Point, paths: seq<Path>)
    ensures TraceFrom(start, paths).Ok? <==> forall k | 0 <= k < |paths| :: Known(paths[k].0)
    ensures TraceFrom(start, paths).Err? ==>
      exists k | 0 <= k < |paths| :: !Known(paths[k].0) && TraceFrom(start, paths).error == UnknownDirection(paths[k].0) &&
        forall j | 0 <= j < k :: Known(paths[j].0)
    decreases |paths|
  {
    if |paths| > 0 && Known(paths[0].0) {
      var next := Step(start, paths[0]).value;
      TraceFails(next, paths[1..]);
      if TraceFrom(next, paths[1..]).Err? {
        var k :| 0 <= k < |paths[1..]| && !Known(paths[1..][k].0) &&
          TraceFrom(next, paths[1..]).error == UnknownDirection(paths[1..][k].0) &&
          forall j | 0 <= j < k :: Known(paths[1..][j].0);
        assert !Known(paths[k + 1].0);
        forall j | 0 <= j < k + 1
          ensures Known(paths[j].0)
        {
          if j > 0 {
            assert paths[j] == paths[1..][j - 1];
          }
        }
      } else {
        forall k | 0 <= k < |paths|
          ensures Known(paths[k].0)
        {
          if k > 0 {
            assert paths[k] == paths[1..][k - 1];
          }
        }
      }
    }
  }

  /** The loop of `gen` over one line: `coord` starts at the origin, each
      step pushes the segment from the old `coord` to the new one, and an
      unknown letter is fatal. */
  method BuildWire(paths: seq<Path>) returns (r: Result<Wire, Day3Failure>)
    ensures r == TraceFrom(Origin, paths)
  {
    var coord := Origin;
    var wire: Wire := [];
    assert paths[0..] == paths;
    assert TraceFrom(Origin, paths) == (var rest :- TraceFrom(coord, paths[0..]); Ok(wire + rest)) by {
      if TraceFrom(Origin, paths).Ok? {
        assert wire + TraceFrom(Origin, paths).value == TraceFrom(Origin, paths).value;
      }
    }
    for i := 0 to |paths|
      invariant TraceFrom(Origin, paths) == (var rest :- TraceFrom(coord, paths[i..]); Ok(wire + rest))
    {
      var current := coord;
      var (d, length) := paths[i];
      assert paths[i..][0] == paths[i] && paths[i..][1..] == paths[i + 1..];
      if d == 'U' {
        coord := (coord.0, coord.1 + length);
      } else if d == 'D' {
        coord := (coord.0, coord.1 - length);
      } else if d == 'L' {
        coord := (coord.0 + length, coord.1);
      } else if d == 'R' {
        coord := (coord.0 - length, coord.1);
      } else {
        return Err(UnknownDirection(d));
      }
      ghost var after := TraceFrom(coord, paths[i + 1..]);
      if after.Ok? {
        assert wire + ([(current, coord)] + after.value) == (wire + [(current, coord)]) + after.value;
      }
      wire := wire + [(current, coord)];
    }
    assert paths[|paths|..] == [];
    assert wire + [] == wire;
    return Ok(wire);
  }

  /** Every line traced from the origin; the first line that fails gives
      the error. */
  function WiresOf(lines: seq<seq<Path>>): (r: Result<seq<Wire>, Day3Failure>)
    ensures r.Ok? ==> |r.value| == |lines|
    ensures r.Ok? ==> forall i | 0 <= i < |lines| :: TraceFrom(Origin, lines[i]) == Ok(r.value[i])
    ensures r.Err? ==> exists i | 0 <= i < |lines| :: TraceFrom(Origin, lines[i]) == Err(r.error)
    ensures (forall i | 0 <= i < |lines| :: TraceFrom(Origin, lines[i]).Ok?) ==> r.Ok?
  {
    if |lines| == 0 then Ok([])
    else
      var w :- TraceFrom(Origin, lines[0]);
      assert forall i | 0 <= i < |lines[1..]| :: lines[1..][i] == lines[i + 1];
      var rest :- WiresOf(lines[1..]);
      Ok([w] + rest)
  }

  // ---------------------------------------------------------------------
  // Collecting the intersections

  /** The point recorded for a pair of segments: `Intersection` as written,
      `Crossing` once corrected. */
  type HitFn = (Segment, Segment) -> Option<Point>

  /** What one loop of `gen` pushes, item after item: each item of `xs`
      contributes `f` of it, in order. */
  function FlatMap<T>(f: T -> seq<WireIntersection>, xs: seq<T>): seq<WireIntersection> {
    if |xs| == 0 then [] else FlatMap(f, xs[..|xs| - 1]) + f(xs[|xs| - 1])
  }

  /** A record is pushed exactly when some item contributes it. */
  lemma {:induction false} FlatMapMembers<T>(f: T -> seq<WireIntersection>, xs: seq<T>, x: WireIntersection)
    ensures x in FlatMap(f, xs) <==> exists k | 0 <= k < |xs| :: x in f(xs[k])
    decreases |xs|
  {
    if |xs| > 0 {
      var n := |xs| - 1;
      FlatMapMembers(f, xs[..n], x);
      assert forall k | 0 <= k < n :: xs[..n][k] == xs[k];
    }
  }

  /** One more item. */
  lemma FlatMapStep<T>(f: T -> seq<WireIntersection>, xs: seq<T>, k: nat)
    requires k < |xs|
    ensures FlatMap(f, xs[..k + 1]) == FlatMap(f, xs[..k]) + f(xs[k])
  {
    assert xs[..k + 1][..k] == xs[..k];
  }

  /** The body of the innermost loop: `seg` of `wire` against a segment of
      `other`. */
  function PairRecord(hit: HitFn, wire: Wire, seg: Segment, other: Wire): Segment -> seq<WireIntersection> {
    o => match hit(seg, o)
         case Some(p) => [WireIntersection((wire, other), p)]
         case None => []
  }

  /** The innermost loop: `seg` of `wire` against every segment of
      `other`. */
  function Against(hit: HitFn, wire: Wire, seg: Segment, other: Wire): seq<WireIntersection> {
    FlatMap(PairRecord(hit, wire, seg, other), other)
  }

  /** The body of the loop over the wires: a wire equal to `wire` is
      skipped. */
  function OtherWireRecords(hit: HitFn, wire: Wire, seg: Segment): Wire -> seq<WireIntersection> {
    other => if other == wire then [] else Against(hit, wire, seg, other)
  }

  /** `seg` of `wire` against every other wire of `wires`. */
  function AcrossWires(hit: HitFn, wire: Wire, seg: Segment, wires: seq<Wire>): seq<WireIntersection> {
    FlatMap(OtherWireRecords(hit, wire, seg), wires)
  }

  function SegmentRecords(hit: HitFn, wire: Wire, wires: seq<Wire>): Segment -> seq<WireIntersection> {
    seg => AcrossWires(hit, wire, seg, wires)
  }

  /** Every segment of `wire` against every other wire. */
  function AlongWire(hit: HitFn, wire: Wire, wires: seq<Wire>): seq<WireIntersection> {
    FlatMap(SegmentRecords(hit, wire, wires), wire)
  }

  function WireRecords(hit: HitFn, wires: seq<Wire>): Wire -> seq<WireIntersection> {
    wire => AlongWire(hit, wire, wires)
  }

  /** The outer loop of `gen`: every wire along its segments. */
  function Crossings(hit: HitFn, wires: seq<Wire>): seq<WireIntersection> {
    FlatMap(WireRecords(hit, wires), wires)
  }

  /** `gen` on lines of parsed paths. */
  function Generated(hit: HitFn, lines: seq<seq<Path>>): Result<seq<WireIntersection>, Day3Failure> {
    var ws :- WiresOf(lines);
    Ok(Crossings(hit, ws))
  }

  /** `hit` gives `p` for `seg` and some segment of `other`. */
  ghost predicate HitsWire(hit: HitFn, seg: Segment, other: Wire, p: Point) {
    exists b | 0 <= b < |other| :: hit(seg, other[b]) == Some(p)
  }

  /** `x` records `seg` of `wire` meeting some wire of `wires` other than
      `wire`. */
  ghost predicate HitsOtherWire(hit: HitFn, wire: Wire, seg: Segment, wires: seq<Wire>, x: WireIntersection) {
    exists j {:trigger HitsWire(hit, seg, wires[j], x.point)} | 0 <= j < |wires| ::
      wires[j] != wire && x.wires == (wire, wires[j]) && HitsWire(hit, seg, wires[j], x.point)
  }

  /** `x` records a segment of `wire` meeting another wire. */
  ghost predicate HitsAlong(hit: HitFn, wire: Wire, wires: seq<Wire>, x: WireIntersection) {
    exists a {:trigger HitsOtherWire(hit, wire, wire[a], wires, x)} | 0 <= a < |wire| :: HitsOtherWire(hit, wire, wire[a], wires, x)
  }

  /** `x` records a segment of one of the wires meeting a segment of
      another. */
  ghost predicate Recorded(hit: HitFn, wires: seq<Wire>, x: WireIntersection) {
    exists i {:trigger HitsAlong(hit, wires[i], wires, x)} | 0 <= i < |wires| :: HitsAlong(hit, wires[i], wires, x)
  }

  lemma AgainstMembers(hit: HitFn, wire: Wire, seg: Segment, other: Wire, x: WireIntersection)
    ensures x in Against(hit, wire, seg, other) <==> x.wires == (wire, other) && HitsWire(hit, seg, other, x.point)
  {
    FlatMapMembers(PairRecord(hit, wire, seg, other), other, x);
  }

  lemma AcrossMembers(hit: HitFn, wire: Wire, seg: Segment, wires: seq<Wire>, x: WireIntersection)
    ensures x in AcrossWires(hit, wire, seg, wires) <==> HitsOtherWire(hit, wire, seg, wires, x)
  {
    FlatMapMembers(OtherWireRecords(hit, wire, seg), wires, x);
    forall j | 0 <= j < |wires|
      ensures x in OtherWireRecords(hit, wire, seg)(wires[j]) <==>
        wires[j] != wire && x.wires == (wire, wires[j]) && HitsWire(hit, seg, wires[j], x.point)
    {
      AgainstMembers(hit, wire, seg, wires[j], x);
    }
  }

  lemma AlongMembers(hit: HitFn, wire: Wire, wires: seq<Wire>, x: WireIntersection)
    ensures x in AlongWire(hit, wire, wires) <==> HitsAlong(hit, wire, wires, x)
  {
    FlatMapMembers(SegmentRecords(hit, wire, wires), wire, x);
    forall a | 0 <= a < |wire|
      ensures x in SegmentRecords(hit, wire, wires)(wire[a]) <==> HitsOtherWire(hit, wire, wire[a], wires, x)
    {
      AcrossMembers(hit, wire, wire[a], wires, x);
    }
  }

  lemma RecordedMembers(hit: HitFn, wires: seq<Wire>, x: WireIntersection)
    ensures x in Crossings(hit, wires) <==> Recorded(hit, wires, x)
  {
    FlatMapMembers(WireRecords(hit, wires), wires, x);
    forall i | 0 <= i < |wires|
      ensures x in WireRecords(hit, wires)(wires[i]) <==> HitsAlong(hit, wires[i], wires, x)
    {
      AlongMembers(hit, wires[i], wires, x);
    }
  }

  lemma RecordedUnfolds(hit: HitFn, wires: seq<Wire>, x: WireIntersection)
    requires Recorded(hit, wires, x)
    ensures exists i, a, j, b | 0 <= i < |wires| && 0 <= a < |wires[i]| && 0 <= j < |wires| && 0 <= b < |wires[j]| ::
      wires[j] != wires[i] && x.wires == (wires[i], wires[j]) && hit(wires[i][a], wires[j][b]) == Some(x.point)
  {
    var i :| 0 <= i < |wires| && HitsAlong(hit, wires[i], wires, x);
    var a :| 0 <= a < |wires[i]| && HitsOtherWire(hit, wires[i], wires[i][a], wires, x);
    var j :| 0 <= j < |wires| && wires[j] != wires[i] && x.wires == (wires[i], wires[j]) && HitsWire(hit, wires[i][a], wires[j], x.point);
    var b :| 0 <= b < |wires[j]| && hit(wires[i][a], wires[j][b]) == Some(x.point);
  }

  lemma RecordedFolds(hit: HitFn, wires: seq<Wire>, x: WireIntersection)
    ensures forall i, a, j, b | 0 <= i < |wires| && 0 <= a < |wires[i]| && 0 <= j < |wires| && 0 <= b < |wires[j]| &&
      wires[j] != wires[i] && x.wires == (wires[i], wires[j]) && hit(wires[i][a], wires[j][b]) == Some(x.point) ::
      Recorded(hit, wires, x)
  {
    forall i, a, j, b | 0 <= i < |wires| && 0 <= a < |wires[i]| && 0 <= j < |wires| && 0 <= b < |wires[j]| &&
      wires[j] != wires[i] && x.wires == (wires[i], wires[j]) && hit(wires[i][a], wires[j][b]) == Some(x.point)
      ensures Recorded(hit, wires, x)
    {
      assert HitsWire(hit, wires[i][a], wires[j], x.point);
      assert HitsOtherWire(hit, wires[i], wires[i][a], wires, x);
      assert HitsAlong(hit, wires[i], wires, x);
    }
  }

  /** A record is produced exactly for a segment of one wire, a segment of
      a different wire, and the point `hit` gives for the two. */
  lemma CrossingsMembers(hit: HitFn, wires: seq<Wire>, x: WireIntersection)
    ensures x in Crossings(hit, wires) <==>
      exists i, a, j, b | 0 <= i < |wires| && 0 <= a < |wires[i]| && 0 <= j < |wires| && 0 <= b < |wires[j]| ::
        wires[j] != wires[i] && x.wires == (wires[i], wires[j]) && hit(wires[i][a], wires[j][b]) == Some(x.point)
  {
    RecordedMembers(hit, wires, x);
    if Recorded(hit, wires, x) {
      RecordedUnfolds(hit, wires, x);
    }
    RecordedFolds(hit, wires, x);
  }

  /** The innermost loop of `gen`: one segment against the segments of one
      other wire, in order. */
  method CrossWire(wire: Wire, seg: Segment, other: Wire) returns (hits: seq<WireIntersection>)
    ensures hits == Against(Intersection, wire, seg, other)
  {
    hits := [];
    for b := 0 to |other|
      invariant hits == FlatMap(PairRecord(Intersection, wire, seg, other), other[..b])
    {
      FlatMapStep(PairRecord(Intersection, wire, seg, other), other, b);
      var point := Intersection(seg, other[b]);
      if point.Some? {
        hits := hits + [WireIntersection((wire, other), point.value)];
      }
    }
    assert other[..|other|] == other;
  }

  /** The loop over the wires for one segment: every wire other than this
      one, in order. */
  method CrossSegment(wire: Wire, seg: Segment, wires: seq<Wire>) returns (hits: seq<WireIntersection>)
    ensures hits == AcrossWires(Intersection, wire, seg, wires)
  {
    hits := [];
    for j := 0 to |wires|
      invariant hits == FlatMap(OtherWireRecords(Intersection, wire, seg), wires[..j])
    {
      FlatMapStep(OtherWireRecords(Intersection, wire, seg), wires, j);
      var other := wires[j];
      if other == wire {
        continue;
      }
      var more := CrossWire(wire, seg, other);
      hits := hits + more;
    }
    assert wires[..|wires|] == wires;
  }

  /** The loop over the segments of one wire. */
  method CrossAlong(wire: Wire, wires: seq<Wire>) returns (hits: seq<WireIntersection>)
    ensures hits == AlongWire(Intersection, wire, wires)
  {
    hits := [];
    for a := 0 to |wire|
      invariant hits == FlatMap(SegmentRecords(Intersection, wire, wires), wire[..a])
    {
      FlatMapStep(SegmentRecords(Intersection, wire, wires), wire, a);
      var more := CrossSegment(wire, wire[a], wires);
      hits := hits + more;
    }
    assert wire[..|wire|] == wire;
  }

  /** The rest of a computation that has produced `done` so far. */
  function Then(done: seq<Wire>, rest: Result<seq<Wire>, Day3Failure>): Result<seq<Wire>, Day3Failure> {
    match rest
    case Ok(more) => Ok(done + more)
    case Err(e) => Err(e)
  }

  /** Tracing the lines from the `i`-th on, one line at a time. */
  lemma WiresStep(lines: seq<seq<Path>>, i: nat, done: seq<Wire>)
    requires i < |lines|
    ensures TraceFrom(Origin, lines[i]).Err? ==>
      Then(done, WiresOf(lines[i..])) == Err(TraceFrom(Origin, lines[i]).error)
    ensures TraceFrom(Origin, lines[i]).Ok? ==>
      Then(done, WiresOf(lines[i..])) == Then(done + [TraceFrom(Origin, lines[i]).value], WiresOf(lines[i + 1..]))
  {
    assert lines[i..][0] == lines[i] && lines[i..][1..] == lines[i + 1..];
    var after := WiresOf(lines[i + 1..]);
    if TraceFrom(Origin, lines[i]).Ok? && after.Ok? {
      var w := TraceFrom(Origin, lines[i]).value;
      assert done + ([w] + after.value) == (done + [w]) + after.value;
    }
  }

  /** The loop of `gen` over the lines: each traced from the origin, the
      first failure fatal. */
  method TraceAll(lines: seq<seq<Path>>) returns (r: Result<seq<Wire>, Day3Failure>)
    ensures r == WiresOf(lines)
  {
    var wires: seq<Wire> := [];
    assert lines[0..] == lines;
    assert WiresOf(lines) == Then(wires, WiresOf(lines[0..])) by {
      if WiresOf(lines).Ok? {
        assert wires + WiresOf(lines).value == WiresOf(lines).value;
      }
    }
    for i := 0 to |lines|
      invariant WiresOf(lines) == Then(wires, WiresOf(lines[i..]))
    {
      WiresStep(lines, i, wires);
      var wire := BuildWire(lines[i]);
      if wire.Err? {
        return Err(wire.error);
      }
      wires := wires + [wire.value];
    }
    assert lines[|lines|..] == [];
    assert wires + [] == wires;
    return Ok(wires);
  }

  /** `gen`: trace every line, then record, for every segment of every wire
      and every segment of every other wire, the point `intersection`
      gives. */
  method Gen(lines: seq<seq<Path>>) returns (r: Result<seq<WireIntersection>, Day3Failure>)
    ensures r == Generated(Intersection, lines)
  {
    var traced := TraceAll(lines);
    if traced.Err? {
      return Err(traced.error);
    }
    var wires := traced.value;
    var intersections: seq<WireIntersection> := [];
    for i := 0 to |wires|
      invariant intersections == FlatMap(WireRecords(Intersection, wires), wires[..i])
    {
      FlatMapStep(WireRecords(Intersection, wires), wires, i);
      var more := CrossAlong(wires[i], wires);
      intersections := intersections + more;
    }
    assert wires[..|wires|] == wires;
    return Ok(intersections);
  }

  // ---------------------------------------------------------------------
  // Part 1

  /** The Manhattan distance from the origin. */
  function Distance(p: Point): nat {
    Abs(p.0) + Abs(p.1)
  }

  /** `part1_impl1`: the least distance of a recorded point; no records is
      fatal. */
  function Part1(input: seq<WireIntersection>): (r: Result<int, Day3Failure>)
    ensures r.Err? <==> |input| == 0
    ensures r.Err? ==> r.error == NoIntersections
    ensures r.Ok? ==> exists k | 0 <= k < |input| :: r.value == Distance(input[k].point)
    ensures r.Ok? ==> forall k | 0 <= k < |input| :: r.value <= Distance(input[k].point)
  {
    if |input| == 0 then Err(NoIntersections)
    else
      var last := |input| - 1;
      var d := Distance(input[last].point);
      match Part1(input[..last])
      case Err(_) => Ok(d)
      case Ok(m) =>
        assert forall k | 0 <= k < last :: input[..last][k] == input[k];
        Ok(if m <= d then m else d)
  }

  // ---------------------------------------------------------------------
  // The corrected intersection

  /** Between `a` and `b`, in either order. */
  predicate Between(a: int, x: int, b: int) {
    a <= x <= b || b <= x <= a
  }

  /** `p` lies within the bounds of the segment; for a horizontal or vertical
      segment, this is lying on it. */
  predicate OnSegment(p: Point, s: Segment) {
    Between(s.0.0, p.0, s.1.0) && Between(s.0.1, p.1, s.1.1)
  }

  /** The intended intersection: the point `intersection` gives, kept only
      when it lies on both segments and is not the origin every wire starts
      from. */
  function Crossing(s: Segment, o: Segment): (r: Option<Point>)
    ensures r.Some? ==> Intersection(s, o) == r
    ensures r.Some? ==> OnSegment(r.value, s) && OnSegment(r.value, o) && r.value != Origin
  {
    match Intersection(s, o)
    case Some(p) => if OnSegment(p, s) && OnSegment(p, o) && p != Origin then Some(p) else None
    case None => None
  }

  /** For a horizontal and a vertical segment, in either order, `Crossing`
      answers exactly the points the two segments share, other than the
      origin. */
  lemma CrossingIsMeeting(s: Segment, o: Segment, p: Point)
    requires (Horizontal(s) && Vertical(o)) || (Vertical(s) && Horizontal(o))
    ensures Crossing(s, o) == Some(p) <==> OnSegment(p, s) && OnSegment(p, o) && p != Origin
  {
    AxisIntersection(s, o);
  }

  /** A path of one step traces one segment. */
  lemma TraceOne(start: Point, p: Path, next: Point)
    requires Step(start, p) == Some(next)
    ensures TraceFrom(start, [p]) == Ok([(start, next)])
  {
    assert [p][1..] == [];
    assert TraceFrom(next, []) == Ok([]);
    assert [(start, next)] + [] == [(start, next)];
  }

  /** The two wires `R8` and `U7`, traced. */
  lemma TracedExample()
    ensures WiresOf([[('R', 8)], [('U', 7)]]) == Ok([[((0, 0), (-8, 0))], [((0, 0), (0, 7))]])
  {
    var a: Wire := [((0, 0), (-8, 0))];
    var b: Wire := [((0, 0), (0, 7))];
    TraceOne(Origin, ('R', 8), (-8, 0));
    TraceOne(Origin, ('U', 7), (0, 7));
    var lines: seq<seq<Path>> := [[('R', 8)], [('U', 7)]];
    assert lines[1..] == [[('U', 7)]] && lines[1..][1..] == [];
    assert WiresOf(lines[1..][1..]) == Ok([]);
    assert [b] + [] == [b];
    assert WiresOf(lines[1..]) == Ok([b]);
    assert [a] + [b] == [a, b];
  }

  lemma FlatMapOne<T>(f: T -> seq<WireIntersection>, xs: seq<T>)
    requires |xs| == 1
    ensures FlatMap(f, xs) == f(xs[0])
  {
    assert xs[..0] == [];
  }

  lemma FlatMapTwo<T>(f: T -> seq<WireIntersection>, xs: seq<T>)
    requires |xs| == 2
    ensures FlatMap(f, xs) == f(xs[0]) + f(xs[1])
  {
    assert xs[..1] == [xs[0]];
    FlatMapOne(f, xs[..1]);
  }

  /** Two different one-segment wires: each sees only the other. */
  lemma OneSegmentWires(hit: HitFn, a: Wire, b: Wire)
    requires |a| == 1 && |b| == 1 && a != b
    ensures AlongWire(hit, a, [a, b]) == PairRecord(hit, a, a[0], b)(b[0])
    ensures AlongWire(hit, b, [a, b]) == PairRecord(hit, b, b[0], a)(a[0])
  {
    var ws := [a, b];
    FlatMapOne(SegmentRecords(hit, a, ws), a);
    FlatMapOne(SegmentRecords(hit, b, ws), b);
    FlatMapTwo(OtherWireRecords(hit, a, a[0]), ws);
    FlatMapTwo(OtherWireRecords(hit, b, b[0]), ws);
    FlatMapOne(PairRecord(hit, a, a[0], b), b);
    FlatMapOne(PairRecord(hit, b, b[0], a), a);
  }

  /** Each of the two segments of `R8` and `U7` against the other wire. */
  lemma CrossedExample(hit: HitFn, p: Option<Point>, q: Option<Point>)
    requires hit(((0, 0), (-8, 0)), ((0, 0), (0, 7))) == p
    requires hit(((0, 0), (0, 7)), ((0, 0), (-8, 0))) == q
    ensures var a := [((0, 0), (-8, 0))];
      var b := [((0, 0), (0, 7))];
      Crossings(hit, [a, b]) ==
        (if p.Some? then [WireIntersection((a, b), p.value)] else []) +
        (if q.Some? then [WireIntersection((b, a), q.value)] else [])
  {
    var a: Wire := [((0, 0), (-8, 0))];
    var b: Wire := [((0, 0), (0, 7))];
    assert a != b by {
      assert a[0] != b[0];
    }
    OneSegmentWires(hit, a, b);
    FlatMapTwo(WireRecords(hit, [a, b]), [a, b]);
  }

  /** As written, two wires whose first segments are perpendicular meet at
      the origin both start from: `R8` and `U7`, which share no other point,
      are recorded as meeting there, once in each order. */
  lemma OriginRecorded()
    ensures var a := [((0, 0), (-8, 0))];
      var b := [((0, 0), (0, 7))];
      Generated(Intersection, [[('R', 8)], [('U', 7)]]) ==
        Ok([WireIntersection((a, b), (0, 0)), WireIntersection((b, a), (0, 0))])
  {
    var a: Wire := [((0, 0), (-8, 0))];
    var b: Wire := [((0, 0), (0, 7))];
    TracedExample();
    AxisIntersection(a[0], b[0]);
    AxisIntersection(b[0], a[0]);
    CrossedExample(Intersection, Some((0, 0)), Some((0, 0)));
    var x, y := WireIntersection((a, b), (0, 0)), WireIntersection((b, a), (0, 0));
    assert Crossings(Intersection, [a, b]) == [x] + [y] == [x, y];
  }

  /** So part 1, as written, answers 0 for them. */
  lemma Part1CountsOrigin()
    ensures Generated(Intersection, [[('R', 8)], [('U', 7)]]).Ok?
    ensures Part1(Generated(Intersection, [[('R', 8)], [('U', 7)]]).value) == Ok(0)
  {
    OriginRecorded();
    var xs := Generated(Intersection, [[('R', 8)], [('U', 7)]]).value;
    assert |xs| == 2 && xs[0].point == (0, 0) && xs[1].point == (0, 0);
    assert forall k | 0 <= k < |xs| :: Distance(xs[k].point) == 0;
  }

  /** Corrected, the same two wires have no crossing at all, and part 1
      reports that. */
  lemma CrossingSkipsOrigin()
    ensures Generated(Crossing, [[('R', 8)], [('U', 7)]]) == Ok([])
    ensures Part1([]) == Err(NoIntersections)
  {
    var a: Wire := [((0, 0), (-8, 0))];
    var b: Wire := [((0, 0), (0, 7))];
    TracedExample();
    AxisIntersection(a[0], b[0]);
    AxisIntersection(b[0], a[0]);
    assert Crossing(a[0], b[0]) == None;
    assert Crossing(b[0], a[0]) == None;
    CrossedExample(Crossing, None, None);
  }

  /** Corrected, part 1 answers at most the distance of every point where
      a segment of one wire crosses a segment of another. */
  lemma NearestCrossingIsLeast(ws: seq<Wire>, i: nat, a: nat, j: nat, b: nat)
    requires i < |ws| && a < |ws[i]| && j < |ws| && b < |ws[j]| && ws[j] != ws[i]
    requires Crossing(ws[i][a], ws[j][b]).Some?
    ensures Part1(Crossings(Crossing, ws)).Ok?
    ensures Part1(Crossings(Crossing, ws)).value <= Distance(Crossing(ws[i][a], ws[j][b]).value)
  {
    var x := WireIntersection((ws[i], ws[j]), Crossing(ws[i][a], ws[j][b]).value);
    CrossingsMembers(Crossing, ws, x);
    var xs := Crossings(Crossing, ws);
    var k :| 0 <= k < |xs| && xs[k] == x;
  }

  /** ... and what it answers is the distance of such a point. */
  lemma NearestCrossingIsReal(ws: seq<Wire>)
    requires Part1(Crossings(Crossing, ws)).Ok?
    ensures exists i, a, j, b | 0 <= i < |ws| && 0 <= a < |ws[i]| && 0 <= j < |ws| && 0 <= b < |ws[j]| ::
      ws[j] != ws[i] && Crossing(ws[i][a], ws[j][b]).Some? &&
      Distance(Crossing(ws[i][a], ws[j][b]).value) == Part1(Crossings(Crossing, ws)).value
  {
    var xs := Crossings(Crossing, ws);
    var k :| 0 <= k < |xs| && Part1(xs).value == Distance(xs[k].point);
    CrossingsMembers(Crossing, ws, xs[k]);
  }
}
