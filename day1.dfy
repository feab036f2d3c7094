/** Day 1 (src/day1.rs): the fuel a module of a given mass needs, and the
    fuel that fuel needs in turn. */
module Day1 {

  /** Rust's `/` on `i64`: the quotient rounded toward zero (Dafny's `/` is
      Euclidean). */
  function TruncDiv(a: int, d: int): int
    requires d > 0
  {
    if a >= 0 then a / d else -((-a) / d)
  }

  /** `calculate_fuel`: a third of the mass, rounded toward zero, minus 2. */
  function CalculateFuel(mass: int): int {
    TruncDiv(mass, 3) - 2
  }

  /** The fuel is the quotient of the division by three taken toward zero,
      less two: for a non-negative mass it is the largest `f` with
      `3 * (f + 2) <= mass`, for a negative one the smallest with
      `3 * (f + 2) >= mass`.  It never decreases with the mass, and is below
      any positive mass. */
  lemma CalculateFuelLaws(mass: int, heavier: int)
    ensures mass >= 0 ==> 3 * (CalculateFuel(mass) + 2) <= mass < 3 * (CalculateFuel(mass) + 3)
    ensures mass < 0 ==> 3 * (CalculateFuel(mass) + 1) < mass <= 3 * (CalculateFuel(mass) + 2)
    ensures mass > 0 ==> CalculateFuel(mass) < mass
    ensures mass <= heavier ==> CalculateFuel(mass) <= CalculateFuel(heavier)
  {
  }

  /** The tests on `calculate_fuel`. */
  lemma CalculateFuelExamples()
    ensures CalculateFuel(12) == 2 && CalculateFuel(14) == 2 && CalculateFuel(1969) == 654
    ensures CalculateFuel(100756) == 33583
  {
  }

  function Max0(x: int): int {
    if x < 0 then 0 else x
  }

  /** `calculate_recursive_fuel`: nothing for a mass that is not positive;
      otherwise the fuel for the mass plus the fuel for that fuel, the latter
      clamped at 0. */
  function RecursiveFuel(mass: int): (r: int)
    decreases if mass <= 0 then 0 else mass
    ensures mass <= 0 ==> r == 0
    ensures mass > 0 ==> r >= CalculateFuel(mass)
  {
    if mass <= 0 then 0
    else
      var f := CalculateFuel(mass);
      CalculateFuelLaws(mass, mass);
      f + Max0(RecursiveFuel(f))
  }

  /** The positive terms of mass, fuel for the mass, fuel for that fuel, ...
      (the mass itself excluded): the fuel added layer by layer. */
  function FuelChain(mass: int): seq<int>
    decreases if mass <= 0 then 0 else mass
  {
    var f := CalculateFuel(mass);
    if f <= 0 then []
    else
      CalculateFuelLaws(mass, mass);
      [f] + FuelChain(f)
  }

  function Sum(s: seq<int>): int {
    if |s| == 0 then 0 else Sum(s[..|s| - 1]) + s[|s| - 1]
  }

  lemma {:induction false} SumCons(x: int, s: seq<int>)
    ensures Sum([x] + s) == x + Sum(s)
    decreases |s|
  {
    if |s| > 0 {
      assert ([x] + s)[..|s|] == [x] + s[..|s| - 1];
      SumCons(x, s[..|s| - 1]);
    }
  }

  lemma {:induction false} SumAppend(a: seq<int>, b: seq<int>)
    ensures Sum(a + b) == Sum(a) + Sum(b)
    decreases |b|
  {
    if |b| > 0 {
      assert (a + b)[..|a + b| - 1] == a + b[..|b| - 1];
      SumAppend(a, b[..|b| - 1]);
    } else {
      assert a + b == a;
    }
  }

  /** Whenever a positive mass needs fuel at all, its recursive fuel is the
      sum of the fuel added layer by layer until a layer needs none; a mass
      that needs no fuel (between 1 and 8) gets `calculate_fuel` itself,
      which is at most 0. */
  lemma {:induction false} RecursiveFuelIsChainSum(mass: int)
    requires mass > 0
    ensures CalculateFuel(mass) > 0 ==> RecursiveFuel(mass) == Sum(FuelChain(mass)) > 0
    ensures CalculateFuel(mass) <= 0 ==> RecursiveFuel(mass) == CalculateFuel(mass) && FuelChain(mass) == []
    decreases mass
  {
    var f := CalculateFuel(mass);
    CalculateFuelLaws(mass, mass);
    if f > 0 {
      RecursiveFuelIsChainSum(f);
      SumCons(f, FuelChain(f));
    }
  }

  /** One unfolding of `calculate_recursive_fuel` at a positive mass whose
      fuel's recursive fuel is known. */
  lemma RecursiveFuelStep(mass: int, fuel: int, inner: int)
    requires mass > 0 && CalculateFuel(mass) == fuel && RecursiveFuel(fuel) == inner
    ensures RecursiveFuel(mass) == fuel + Max0(inner)
  {
  }

  /** The tests on `calculate_recursive_fuel`, one layer of fuel at a time. */
  lemma RecursiveFuelExamples()
    ensures RecursiveFuel(12) == 2 && RecursiveFuel(14) == 2
    ensures RecursiveFuel(1969) == 966
    ensures RecursiveFuel(100756) == 50346
  {
    RecursiveFuelStep(2, -2, 0);
    RecursiveFuelStep(12, 2, -2);
    RecursiveFuelStep(14, 2, -2);
    RecursiveFuelStep(5, -1, 0);
    RecursiveFuelStep(21, 5, -1);
    RecursiveFuelStep(70, 21, 5);
    RecursiveFuelStep(216, 70, 26);
    RecursiveFuelStep(654, 216, 96);
    RecursiveFuelStep(1969, 654, 312);
    RecursiveFuelStep(43, 12, 2);
    RecursiveFuelStep(135, 43, 14);
    RecursiveFuelStep(411, 135, 57);
    RecursiveFuelStep(1240, 411, 192);
    RecursiveFuelStep(3728, 1240, 603);
    RecursiveFuelStep(11192, 3728, 1843);
    RecursiveFuelStep(33583, 11192, 5571);
    RecursiveFuelStep(100756, 33583, 16763);
  }

  /** `gen` after parsing: each mass replaced by its fuel. */
  function Gen(masses: seq<int>): (fuels: seq<int>)
    ensures |fuels| == |masses|
    ensures forall i | 0 <= i < |masses| :: fuels[i] == CalculateFuel(masses[i])
  {
    if |masses| == 0 then [] else Gen(masses[..|masses| - 1]) + [CalculateFuel(masses[|masses| - 1])]
  }

  /** `part1_impl1`: the sum of the fuels. */
  function Part1(fuels: seq<int>): int {
    Sum(fuels)
  }

  lemma GenAppend(a: seq<int>, b: seq<int>)
    ensures Gen(a + b) == Gen(a) + Gen(b)
  {
    assert forall i | 0 <= i < |a + b| :: Gen(a + b)[i] == (Gen(a) + Gen(b))[i];
  }

  /** The fuel of a list of modules is the fuel of its parts added up. */
  lemma Part1Additive(a: seq<int>, b: seq<int>)
    ensures Part1(Gen(a + b)) == Part1(Gen(a)) + Part1(Gen(b))
  {
    GenAppend(a, b);
    SumAppend(Gen(a), Gen(b));
  }

  /** A single module contributes its own fuel, and no modules none. */
  lemma Part1Single(m: int)
    ensures Part1(Gen([m])) == CalculateFuel(m)
    ensures Part1(Gen([])) == 0
  {
    assert [m][..0] == [];
    assert Gen([m]) == [CalculateFuel(m)];
    assert [CalculateFuel(m)][..0] == [];
    assert Sum([CalculateFuel(m)]) == CalculateFuel(m);
  }

  /** `part2_impl1` as written: each fuel `f` plus `calculate_recursive_fuel(f)`,
      unclamped. */
  function Part2(fuels: seq<int>): int {
    if |fuels| == 0 then 0
    else
      var f := fuels[|fuels| - 1];
      Part2(fuels[..|fuels| - 1]) + (f + RecursiveFuel(f))
  }

  /** Part 2 with the recursive term clamped at 0, as inside
      `calculate_recursive_fuel`. */
  function Part2Fixed(fuels: seq<int>): int {
    if |fuels| == 0 then 0
    else
      var f := fuels[|fuels| - 1];
      Part2Fixed(fuels[..|fuels| - 1]) + (f + Max0(RecursiveFuel(f)))
  }

  /** The total recursive fuel of the modules. */
  function RecursiveTotal(masses: seq<int>): int {
    if |masses| == 0 then 0 else RecursiveTotal(masses[..|masses| - 1]) + RecursiveFuel(masses[|masses| - 1])
  }

  /** Corrected, part 2 answers the sum of `calculate_recursive_fuel` over the
      (positive) module masses, which is the fuel added layer by layer. */
  lemma {:induction false} Part2FixedIsRecursiveTotal(masses: seq<int>)
    requires forall i | 0 <= i < |masses| :: masses[i] > 0
    ensures Part2Fixed(Gen(masses)) == RecursiveTotal(masses)
    decreases |masses|
  {
    if |masses| > 0 {
      var init := masses[..|masses| - 1];
      assert Gen(masses)[..|masses| - 1] == Gen(init);
      Part2FixedIsRecursiveTotal(init);
    }
  }

  /** As written, part 2 agrees with the corrected one as long as every fuel
      is at least 6 (every mass at least 24). */
  lemma {:induction false} Part2AgreesOnLargeModules(fuels: seq<int>)
    requires forall i | 0 <= i < |fuels| :: fuels[i] >= 6
    ensures Part2(fuels) == Part2Fixed(fuels)
    decreases |fuels|
  {
    if |fuels| > 0 {
      var f := fuels[|fuels| - 1];
      Part2AgreesOnLargeModules(fuels[..|fuels| - 1]);
      CalculateFuelLaws(6, f);
    }
  }

  /** A module of mass 12 needs 2 fuel, but part 2 as written counts 0 for it. */
  lemma Part2DiffersOnSmallModules()
    ensures Part2(Gen([12])) == 0 && RecursiveTotal([12]) == 2 && Part2Fixed(Gen([12])) == 2
  {
    assert Gen([12]) == [2];
    assert [2][..0] == [];
    assert [12][..0] == [];
    assert RecursiveFuel(2) == -2;
  }
}
