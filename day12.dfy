/** Day 12 (src/day12.rs): four moons pull on each other axis by axis.  A
    step first changes every velocity by the pull of the others' positions,
    then moves every moon by its velocity; part 1 is the total energy after
    1000 steps. */
module Day12 {

  /** A position or velocity: x, y and z. */
  type Triple = (int, int, int)

  /** `CelestialObject`. */
  datatype CelestialObject = CelestialObject(pos: Triple, vel: Triple)

  function Add(a: Triple, b: Triple): Triple {
    (a.0 + b.0, a.1 + b.1, a.2 + b.2)
  }

  function Neg(a: Triple): Triple {
    (-a.0, -a.1, -a.2)
  }

  function Abs(n: int): nat {
    if n < 0 then -n else n
  }

  /** `|x| + |y| + |z|`. */
  function Norm(a: Triple): nat {
    Abs(a.0) + Abs(a.1) + Abs(a.2)
  }

  /** `energy`: potential (position) energy times kinetic (velocity)
      energy; it is never negative, and it is 0 exactly when the object is
      at the origin or at rest. */
  function Energy(o: CelestialObject): (e: nat)
    ensures e == 0 <==> o.pos == (0, 0, 0) || o.vel == (0, 0, 0)
  {
    Norm(o.pos) * Norm(o.vel)
  }

  /** `apply_velocity`: the position moves by the velocity, which stays. */
  function Moved(o: CelestialObject): (r: CelestialObject)
    ensures r.vel == o.vel && Add(r.pos, Neg(o.vel)) == o.pos
  {
    CelestialObject(Add(o.pos, o.vel), o.vel)
  }

  /** `compare`: -1, 0 or 1 as `second` is below, at or above `first`. */
  function Compare(first: int, second: int): int {
    if second < first then -1 else if second == first then 0 else 1
  }

  /** Comparison is a sign: positive exactly when `second` is above
      `first`, zero exactly when they are equal, and swapping the two
      flips it. */
  lemma CompareLaws(first: int, second: int)
    ensures -1 <= Compare(first, second) <= 1
    ensures Compare(first, second) > 0 <==> second > first
    ensures Compare(first, second) == 0 <==> second == first
    ensures Compare(second, first) == -Compare(first, second)
  {
  }

  /** The pull of a moon at `other` on a moon at `own`: nothing when the
      two share their whole position, one unit towards `other` per axis
      otherwise. */
  function Attraction(own: Triple, other: Triple): Triple {
    if own == other then (0, 0, 0)
    else (Compare(own.0, other.0), Compare(own.1, other.1), Compare(own.2, other.2))
  }

  /** The pulls are opposite: what `a` feels from `b` is minus what `b`
      feels from `a`. */
  lemma AttractionOpposite(a: Triple, b: Triple)
    ensures Attraction(b, a) == Neg(Attraction(a, b))
  {
    CompareLaws(a.0, b.0);
    CompareLaws(a.1, b.1);
    CompareLaws(a.2, b.2);
  }

  /** The pull of all of `others` on a moon at `own`. */
  function TotalPull(others: seq<CelestialObject>, own: Triple): Triple {
    if |others| == 0 then (0, 0, 0)
    else Add(TotalPull(others[..|others| - 1], own), Attraction(own, others[|others| - 1].pos))
  }

  /** A moon after the pull of the moons of `snapshot`. */
  function Pulled(snapshot: seq<CelestialObject>, o: CelestialObject): CelestialObject {
    CelestialObject(o.pos, Add(o.vel, TotalPull(snapshot, o.pos)))
  }

  /** `apply_gravity` on a whole system: every moon is pulled by the
      positions all moons had before the step. */
  function Gravity(s: seq<CelestialObject>): (r: seq<CelestialObject>)
    ensures |r| == |s|
    ensures forall i | 0 <= i < |s| :: r[i].pos == s[i].pos
  {
    seq(|s|, i requires 0 <= i < |s| => Pulled(s, s[i]))
  }

  /** Every moon moved by its velocity. */
  function Drift(s: seq<CelestialObject>): (r: seq<CelestialObject>)
    ensures |r| == |s|
    ensures forall i | 0 <= i < |s| :: r[i].vel == s[i].vel
  {
    seq(|s|, i requires 0 <= i < |s| => Moved(s[i]))
  }

  /** One step of the simulation. */
  function Step(s: seq<CelestialObject>): seq<CelestialObject> {
    Drift(Gravity(s))
  }

  /** The system after `n` steps. */
  function Simulate(s: seq<CelestialObject>, n: nat): (r: seq<CelestialObject>)
    ensures |r| == |s|
  {
    if n == 0 then s else Step(Simulate(s, n - 1))
  }

  /** The sum of the velocities. */
  function Momentum(s: seq<CelestialObject>): Triple {
    if |s| == 0 then (0, 0, 0) else Add(Momentum(s[..|s| - 1]), s[|s| - 1].vel)
  }

  /** The total energy of the system. */
  function TotalEnergy(s: seq<CelestialObject>): nat {
    if |s| == 0 then 0 else TotalEnergy(s[..|s| - 1]) + Energy(s[|s| - 1])
  }

  /** Systems with the same velocities have the same momentum. */
  lemma {:induction false} MomentumOfVelocities(s: seq<CelestialObject>, t: seq<CelestialObject>)
    requires |s| == |t| && forall i | 0 <= i < |s| :: s[i].vel == t[i].vel
    ensures Momentum(s) == Momentum(t)
    decreases |s|
  {
    if |s| > 0 {
      MomentumOfVelocities(s[..|s| - 1], t[..|t| - 1]);
    }
  }

  /** Adding four triples from zero, one at a time, is adding them in two
      pairs. */
  lemma AddFour(a: Triple, b: Triple, c: Triple, d: Triple)
    ensures Add(Add(Add(Add((0, 0, 0), a), b), c), d) == Add(Add(a, b), Add(c, d))
  {
  }

  /** The pull on a moon of a system of four, written out. */
  lemma TotalPullOfFour(s: seq<CelestialObject>, p: Triple)
    requires |s| == 4
    ensures TotalPull(s, p) == Add(Add(Attraction(p, s[0].pos), Attraction(p, s[1].pos)),
                                   Add(Attraction(p, s[2].pos), Attraction(p, s[3].pos)))
  {
    assert s[..3][..2] == s[..2] && s[..2][..1] == s[..1] && s[..1][..0] == [];
    var a0, a1, a2, a3 := Attraction(p, s[0].pos), Attraction(p, s[1].pos), Attraction(p, s[2].pos), Attraction(p, s[3].pos);
    assert TotalPull(s[..1], p) == Add((0, 0, 0), a0);
    assert TotalPull(s[..2], p) == Add(TotalPull(s[..1], p), a1);
    assert TotalPull(s[..3], p) == Add(TotalPull(s[..2], p), a2);
    assert TotalPull(s, p) == Add(TotalPull(s[..3], p), a3);
    AddFour(a0, a1, a2, a3);
  }

  /** The momentum of a system of four, written out. */
  lemma MomentumOfFour(s: seq<CelestialObject>)
    requires |s| == 4
    ensures Momentum(s) == Add(Add(s[0].vel, s[1].vel), Add(s[2].vel, s[3].vel))
  {
    assert s[..3][..2] == s[..2] && s[..2][..1] == s[..1] && s[..1][..0] == [];
    assert Momentum(s[..1]) == Add((0, 0, 0), s[0].vel);
    assert Momentum(s[..2]) == Add(Momentum(s[..1]), s[1].vel);
    assert Momentum(s[..3]) == Add(Momentum(s[..2]), s[2].vel);
    assert Momentum(s) == Add(Momentum(s[..3]), s[3].vel);
    AddFour(s[0].vel, s[1].vel, s[2].vel, s[3].vel);
  }

  /** Gravity conserves momentum: the pulls between two moons cancel. */
  lemma GravityConservesMomentum(s: seq<CelestialObject>)
    requires |s| == 4
    ensures Momentum(Gravity(s)) == Momentum(s)
  {
    var g := Gravity(s);
    MomentumOfFour(s);
    MomentumOfFour(g);
    forall i | 0 <= i < 4
      ensures TotalPull(s, s[i].pos) == Add(Add(Attraction(s[i].pos, s[0].pos), Attraction(s[i].pos, s[1].pos)),
                                           Add(Attraction(s[i].pos, s[2].pos), Attraction(s[i].pos, s[3].pos)))
    {
      TotalPullOfFour(s, s[i].pos);
    }
    forall i, j | 0 <= i < 4 && 0 <= j < 4
      ensures Attraction(s[j].pos, s[i].pos) == Neg(Attraction(s[i].pos, s[j].pos))
    {
      AttractionOpposite(s[i].pos, s[j].pos);
    }
  }

  /** The simulation keeps the total velocity of the four moons. */
  lemma {:induction false} SimulateConservesMomentum(s: seq<CelestialObject>, n: nat)
    requires |s| == 4
    ensures Momentum(Simulate(s, n)) == Momentum(s)
  {
    if n > 0 {
      SimulateConservesMomentum(s, n - 1);
      var g := Gravity(Simulate(s, n - 1));
      GravityConservesMomentum(Simulate(s, n - 1));
      MomentumOfVelocities(Drift(g), g);
    }
  }

  /** The inner loop of `apply_gravity`: moon `i` gains the pull of every
      moon of the copy `vec`, and no other moon changes. */
  method PullMoon(objects: array<CelestialObject>, vec: seq<CelestialObject>, i: nat)
    requires i < objects.Length && i < |vec| && objects[i] == vec[i]
    modifies objects
    ensures objects[..] == old(objects[..])[i := Pulled(vec, vec[i])]
  {
    ghost var before := objects[..];
    for j := 0 to |vec|
      invariant objects[i] == CelestialObject(vec[i].pos, Add(vec[i].vel, TotalPull(vec[..j], vec[i].pos)))
      invariant objects[..] == before[i := objects[i]]
    {
      assert vec[..j + 1][..j] == vec[..j];
      var pos := objects[i].pos;
      var other := vec[j].pos;
      if pos == other {
        continue;
      }
      var vel := objects[i].vel;
      objects[i] := objects[i].(vel := (vel.0 + Compare(pos.0, other.0), vel.1 + Compare(pos.1, other.1),
                                        vel.2 + Compare(pos.2, other.2)));
    }
    assert vec[..|vec|] == vec;
  }

  /** `apply_gravity`: every velocity gains the pull of every other moon,
      positions taken from a copy made before the first change. */
  method ApplyGravity(objects: array<CelestialObject>)
    modifies objects
    ensures objects[..] == Gravity(old(objects[..]))
  {
    var vec := objects[..];
    for i := 0 to objects.Length
      invariant forall k | 0 <= k < i :: objects[k] == Pulled(vec, vec[k])
      invariant forall k | i <= k < objects.Length :: objects[k] == vec[k]
    {
      PullMoon(objects, vec, i);
    }
  }

  /** `apply_velocity` on moon `i`. */
  method ApplyVelocity(objects: array<CelestialObject>, i: nat)
    requires i < objects.Length
    modifies objects
    ensures objects[..] == old(objects[..])[i := Moved(old(objects[i]))]
  {
    var o := objects[i];
    objects[i] := o.(pos := (o.pos.0 + o.vel.0, o.pos.1 + o.vel.1, o.pos.2 + o.vel.2));
  }

  /** `objects.iter_mut().for_each(apply_velocity)`. */
  method ApplyVelocities(objects: array<CelestialObject>)
    modifies objects
    ensures objects[..] == Drift(old(objects[..]))
  {
    ghost var pulled := objects[..];
    for i := 0 to objects.Length
      invariant forall k | 0 <= k < i :: objects[k] == Moved(pulled[k])
      invariant forall k | i <= k < objects.Length :: objects[k] == pulled[k]
    {
      ApplyVelocity(objects, i);
    }
  }

  /** `part1_impl1`: 1000 steps on a copy of the system, then the sum of the
      energies. */
  method Part1(input: seq<CelestialObject>) returns (r: nat)
    requires |input| == 4
    ensures r == TotalEnergy(Simulate(input, 1000))
  {
    var objects := new CelestialObject[4](i requires 0 <= i < 4 => input[i]);
    assert objects[..] == input;
    for n := 0 to 1000
      invariant objects[..] == Simulate(input, n)
    {
      ApplyGravity(objects);
      ApplyVelocities(objects);
    }
    r := TotalEnergy(objects[..]);
  }

  /** The test on one step: the example system at rest, after one step. */
  lemma StepExample()
    ensures Step([
      CelestialObject((-1, 0, 2), (0, 0, 0)),
      CelestialObject((2, -10, -7), (0, 0, 0)),
      CelestialObject((4, -8, 8), (0, 0, 0)),
      CelestialObject((3, 5, -1), (0, 0, 0))])
    == [
      CelestialObject((2, -1, 1), (3, -1, -1)),
      CelestialObject((3, -7, -4), (1, 3, 3)),
      CelestialObject((1, -7, 5), (-3, 1, -3)),
      CelestialObject((2, 2, 0), (-1, -3, 1))]
  {
    var s := [
      CelestialObject((-1, 0, 2), (0, 0, 0)),
      CelestialObject((2, -10, -7), (0, 0, 0)),
      CelestialObject((4, -8, 8), (0, 0, 0)),
      CelestialObject((3, 5, -1), (0, 0, 0))];
    TotalPullOfFour(s, s[0].pos);
    assert TotalPull(s, s[0].pos) == (3, -1, -1);
    TotalPullOfFour(s, s[1].pos);
    assert TotalPull(s, s[1].pos) == (1, 3, 3);
    TotalPullOfFour(s, s[2].pos);
    assert TotalPull(s, s[2].pos) == (-3, 1, -3);
    TotalPullOfFour(s, s[3].pos);
    assert TotalPull(s, s[3].pos) == (-1, -3, 1);
    var g := [
      CelestialObject((-1, 0, 2), (3, -1, -1)),
      CelestialObject((2, -10, -7), (1, 3, 3)),
      CelestialObject((4, -8, 8), (-3, 1, -3)),
      CelestialObject((3, 5, -1), (-1, -3, 1))];
    assert Gravity(s) == g;
  }

  // ---------------------------------------------------------------------------
  // gcd and lcm
  // ---------------------------------------------------------------------------

  /** `d` divides `n`. */
  ghost predicate Divides(d: int, n: int) {
    exists k: int :: n == d * k
  }

  /** Euclid's algorithm, one remainder at a time. */
  function GcdOf(a: nat, b: nat): nat
    decreases b
  {
    if b == 0 then a else GcdOf(b, a % b)
  }

  /** A divisor of `b` divides `a` iff it divides the remainder of `a` by
      `b`. */
  lemma DividesRemainder(a: nat, b: nat, d: int)
    requires b > 0 && Divides(d, b)
    ensures Divides(d, a) <==> Divides(d, a % b)
  {
    var q, r := a / b, a % b;
    assert a == q * b + r;
    var k :| b == d * k;
    assert q * b == d * (q * k) by {
      assert q * (d * k) == (q * d) * k == d * (q * k);
    }
    if Divides(d, a) {
      var m :| a == d * m;
      assert r == d * (m - q * k);
    }
    if Divides(d, r) {
      var t :| r == d * t;
      assert a == d * (q * k + t);
    }
  }

  /** `GcdOf(a, b)` divides both, and every common divisor divides it; it is
      0 only for (0, 0). */
  lemma {:induction false} GcdIsGreatestCommonDivisor(a: nat, b: nat)
    ensures Divides(GcdOf(a, b), a) && Divides(GcdOf(a, b), b)
    ensures forall d :: Divides(d, a) && Divides(d, b) ==> Divides(d, GcdOf(a, b))
    ensures GcdOf(a, b) == 0 <==> a == 0 && b == 0
    decreases b
  {
    if b == 0 {
      assert a == a * 1 && 0 == a * 0;
    } else {
      GcdIsGreatestCommonDivisor(b, a % b);
      var g := GcdOf(b, a % b);
      DividesRemainder(a, b, g);
      forall d | Divides(d, a) && Divides(d, b)
        ensures Divides(d, g)
      {
        DividesRemainder(a, b, d);
      }
    }
  }

  /** `gcd`: Euclid's loop, `(a, b) := (b, a % b)` until `b` is 0. */
  method Gcd(a: nat, b: nat) returns (g: nat)
    ensures g == GcdOf(a, b)
  {
    var x, y := a, b;
    while y != 0
      invariant GcdOf(x, y) == GcdOf(a, b)
      decreases y
    {
      var tmp := y;
      y := x % y;
      x := tmp;
    }
    g := x;
  }

  /** Dividing `g * x * b` by `g` gives `x * b`. */
  lemma ExactQuotient(g: int, x: int, b: int)
    requires g > 0
    ensures (g * x) * b / g == x * b
  {
    var n := x * b;
    assert (g * x) * b == g * n;
    DivideMultiple(g, n);
  }

  lemma AtLeastOnce(k: int, g: int)
    requires k >= 1 && g > 0
    ensures k * g >= g
  {
  }

  /** A multiple of `g`, divided by `g`, gives the factor back. */
  lemma DivideMultiple(g: int, n: int)
    requires g > 0
    ensures (g * n) / g == n
  {
    var q, r := (g * n) / g, (g * n) % g;
    assert q * g + r == n * g;
    if q > n {
      AtLeastOnce(q - n, g);
    } else if q < n {
      AtLeastOnce(n - q, g);
    }
  }

  /** `lcm`: `a * b / gcd(a, b)`, a multiple of both that times the gcd
      gives `a * b`; the division by zero of `lcm(0, 0)` is excluded. */
  method Lcm(a: nat, b: nat) returns (r: nat)
    requires a > 0 || b > 0
    ensures r * GcdOf(a, b) == a * b
    ensures Divides(a, r) && Divides(b, r)
  {
    var g := Gcd(a, b);
    GcdIsGreatestCommonDivisor(a, b);
    var x :| a == g * x;
    var y :| b == g * y;
    ExactQuotient(g, x, b);
    r := a * b / g;
    assert r == x * b;
    assert r * g == a * b by {
      assert (x * b) * g == (g * x) * b;
    }
    assert r == b * x;
    assert r == a * y by {
      assert x * (g * y) == (g * x) * y;
    }
  }
}
