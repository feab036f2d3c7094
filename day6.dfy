/** Day 6 (src/day6.rs): the orbit map.  Every object orbits at most one
    other; part 1 counts the direct and indirect orbits of all objects, part
    2 the orbital transfers between what YOU and SAN orbit. */
module Day6 {
  import opened Wrappers

  /** What the object orbits, for each object that orbits something. */
  type OrbitMap = map<string, string>

  /** A line "A)B": `orbiter` B orbits `orbitee` A. */
  datatype Orbit = Orbit(orbitee: string, orbiter: string)

  datatype Day6Failure =
    | NoOrbitNotation(line: nat)   // a line without ')'
    | NoCommonObject               // YOU and SAN orbit nothing in common

  /** The index of the first ')' in `s`. */
  function FindParen(s: string): (r: Option<nat>)
    ensures r.None? <==> ')' !in s
    ensures r.Some? ==> r.value < |s| && s[r.value] == ')' && ')' !in s[..r.value]
  {
    if |s| == 0 then None
    else if s[0] == ')' then Some(0)
    else
      match FindParen(s[1..])
      case None => None
      case Some(i) =>
        assert s[1..][..i] == s[1..i + 1];
        Some(i + 1)
  }

  /** A line split at its first ')': the text before it orbits nothing, the
      text after it is the orbiter. */
  function ParseLine(line: string): (r: Option<Orbit>)
    ensures r.None? <==> ')' !in line
    ensures r.Some? ==> exists i | 0 <= i < |line| ::
      && line[i] == ')' && ')' !in line[..i]
      && r.value.orbitee == line[..i] && r.value.orbiter == line[i + 1..]
  {
    match FindParen(line)
    case None => None
    case Some(i) => Some(Orbit(line[..i], line[i + 1..]))
  }

  /** `gen`: fold the lines into a map from orbiter to orbitee; a later line
      for the same orbiter wins. */
  function Gen(lines: seq<string>): Result<OrbitMap, Day6Failure> {
    if |lines| == 0 then Ok(map[])
    else
      match Gen(lines[..|lines| - 1])
      case Err(e) => Err(e)
      case Ok(m) =>
        match ParseLine(lines[|lines| - 1])
        case None => Err(NoOrbitNotation(|lines| - 1))
        case Some(o) => Ok(m[o.orbiter := o.orbitee])
  }

  /** `gen` fails exactly when some line has no ')', and names the first
      such line. */
  lemma {:induction false} GenFails(lines: seq<string>)
    ensures Gen(lines).Err? <==> exists i | 0 <= i < |lines| :: ParseLine(lines[i]).None?
    ensures Gen(lines).Err? ==>
      && Gen(lines).error.NoOrbitNotation?
      && Gen(lines).error.line < |lines|
      && ParseLine(lines[Gen(lines).error.line]).None?
      && forall j | 0 <= j < Gen(lines).error.line :: ParseLine(lines[j]).Some?
    decreases |lines|
  {
    if |lines| > 0 {
      var init := lines[..|lines| - 1];
      GenFails(init);
      assert forall i | 0 <= i < |init| :: init[i] == lines[i];
    }
  }

  /** Once `gen` succeeds, the map holds exactly the orbiters of the lines. */
  lemma {:induction false} GenKeys(lines: seq<string>)
    requires Gen(lines).Ok?
    ensures forall i | 0 <= i < |lines| :: ParseLine(lines[i]).Some?
    ensures forall k :: k in Gen(lines).value <==>
      exists i | 0 <= i < |lines| :: ParseLine(lines[i]).value.orbiter == k
    decreases |lines|
  {
    if |lines| > 0 {
      var init := lines[..|lines| - 1];
      GenKeys(init);
      assert forall i | 0 <= i < |init| :: init[i] == lines[i];
    }
  }

  /** Once `gen` succeeds, each orbiter is mapped to the orbitee of the last
      line that names it. */
  lemma {:induction false} GenLastWins(lines: seq<string>, i: nat)
    requires Gen(lines).Ok? && i < |lines|
    requires ParseLine(lines[i]).Some?
    requires forall j | i < j < |lines| :: ParseLine(lines[j]).Some? ==>
      ParseLine(lines[j]).value.orbiter != ParseLine(lines[i]).value.orbiter
    ensures var o := ParseLine(lines[i]).value;
      o.orbiter in Gen(lines).value && Gen(lines).value[o.orbiter] == o.orbitee
    decreases |lines|
  {
    var init := lines[..|lines| - 1];
    if i < |lines| - 1 {
      assert init[i] == lines[i];
      forall j | i < j < |init|
        ensures ParseLine(init[j]).Some? ==>
          ParseLine(init[j]).value.orbiter != ParseLine(init[i]).value.orbiter
      {
        assert init[j] == lines[j];
      }
      GenLastWins(init, i);
    }
  }

  // ---------------------------------------------------------------------------
  // Following the orbits
  // ---------------------------------------------------------------------------

  /** The object `k` steps up from `o` (`o` itself at step 0), or None once
      an object that orbits nothing has been passed. */
  function Up(m: OrbitMap, o: string, k: nat): Option<string> {
    if k == 0 then Some(o)
    else
      match Up(m, o, k - 1)
      case None => None
      case Some(x) => if x in m then Some(m[x]) else None
  }

  /** `o` has exactly `n` objects above it: the chain from `o` ends at an
      object that orbits nothing after `n` steps. */
  predicate RootedAt(m: OrbitMap, o: string, n: nat) {
    Up(m, o, n).Some? && Up(m, o, n).value !in m
  }

  /** The chain from `o` ends; `count_orbits` and `trace_orbits` loop for ever
      on a cycle. */
  ghost predicate Rooted(m: OrbitMap, o: string) {
    exists n: nat :: RootedAt(m, o, n)
  }

  lemma {:induction false} UpNoneStays(m: OrbitMap, o: string, k: nat, k': nat)
    requires k <= k' && Up(m, o, k).None?
    ensures Up(m, o, k').None?
    decreases k' - k
  {
    if k < k' {
      UpNoneStays(m, o, k, k' - 1);
    }
  }

  /** On a chain of `n` steps, step `k` exists iff `k <= n`, and every object
      before the last orbits something. */
  lemma {:induction false} RootedUp(m: OrbitMap, o: string, n: nat, k: nat)
    requires RootedAt(m, o, n)
    ensures Up(m, o, k).Some? <==> k <= n
    ensures k < n ==> Up(m, o, k).value in m
  {
    if k <= n && Up(m, o, k).None? {
      UpNoneStays(m, o, k, n);
    }
    if k > n {
      UpNoneStays(m, o, n + 1, k);
    }
    if k < n && Up(m, o, k).Some? && Up(m, o, k).value !in m {
      UpNoneStays(m, o, k + 1, n);
    }
  }

  /** The number of orbits of `o`, direct and indirect. */
  ghost function OrbitCount(m: OrbitMap, o: string): (n: nat)
    requires Rooted(m, o)
    ensures RootedAt(m, o, n)
  {
    var n :| RootedAt(m, o, n); n
  }

  /** The length of a chain is unique. */
  lemma RootedUnique(m: OrbitMap, o: string, n: nat, n': nat)
    requires RootedAt(m, o, n) && RootedAt(m, o, n')
    ensures n == n'
  {
    RootedUp(m, o, n, n');
    RootedUp(m, o, n', n);
  }

  /** Stepping `k + 1` up from `o` is stepping `k` up from what `o` orbits. */
  lemma {:induction false} UpFront(m: OrbitMap, o: string, k: nat)
    ensures Up(m, o, k + 1) == if o in m then Up(m, m[o], k) else None
  {
    if k > 0 {
      UpFront(m, o, k - 1);
    }
  }

  /** Stepping `j + t` up from `o` is stepping `t` up from the object `j`
      steps up. */
  lemma {:induction false} UpShift(m: OrbitMap, o: string, j: nat, t: nat)
    requires Up(m, o, j).Some?
    ensures Up(m, o, j + t) == Up(m, Up(m, o, j).value, t)
  {
    if t > 0 {
      UpShift(m, o, j, t - 1);
    }
  }

  /** `count_orbits`: no orbits for an object that orbits nothing, otherwise
      one more than the object it orbits. */
  lemma OrbitCountStep(m: OrbitMap, o: string)
    requires Rooted(m, o)
    ensures o !in m ==> OrbitCount(m, o) == 0
    ensures o in m ==> Rooted(m, m[o]) && OrbitCount(m, o) == 1 + OrbitCount(m, m[o])
  {
    var n := OrbitCount(m, o);
    if o !in m {
      RootedUnique(m, o, n, 0);
    } else {
      RootedUp(m, o, n, 0);
      UpFront(m, o, n - 1);
      assert RootedAt(m, m[o], n - 1);
      RootedUnique(m, m[o], n - 1, OrbitCount(m, m[o]));
    }
  }

  /** No object occurs twice on a chain that ends: a repeat would make the
      chain go round for ever. */
  lemma ChainDistinct(m: OrbitMap, o: string, n: nat, j: nat, k: nat)
    requires RootedAt(m, o, n) && j < k <= n
    ensures Up(m, o, j) != Up(m, o, k)
  {
    if Up(m, o, j) == Up(m, o, k) {
      RootedUp(m, o, n, j);
      RootedUp(m, o, n, k);
      var t := n + 1 - k;
      UpShift(m, o, j, t);
      UpShift(m, o, k, t);
      RootedUp(m, o, n, j + t);
      RootedUp(m, o, n, n + 1);
      assert false;
    }
  }

  /** `count_orbits`: follow the chain from `o`, one orbit per step. */
  method CountOrbits(m: OrbitMap, o: string) returns (count: nat)
    requires Rooted(m, o)
    ensures count == OrbitCount(m, o)
  {
    ghost var n := OrbitCount(m, o);
    count := 0;
    var value := if o in m then Some(m[o]) else None;
    while value.Some?
      invariant count <= n
      invariant value == Up(m, o, count + 1)
      decreases n - count
    {
      RootedUp(m, o, n, count + 1);
      var orbiter := value.value;
      count := count + 1;
      value := if orbiter in m then Some(m[orbiter]) else None;
    }
    RootedUp(m, o, n, count + 1);
  }

  /** `trace_orbits`: the objects above `o`, from the one it orbits outward,
      collected in an insertion-ordered set. */
  method TraceOrbits(m: OrbitMap, o: string) returns (steps: seq<string>)
    requires Rooted(m, o)
    ensures |steps| == OrbitCount(m, o)
    ensures forall i | 0 <= i < |steps| :: Up(m, o, i + 1) == Some(steps[i])
    ensures forall i, j | 0 <= i < j < |steps| :: steps[i] != steps[j]
    ensures o !in steps
  {
    ghost var n := OrbitCount(m, o);
    steps := [];
    var value := if o in m then Some(m[o]) else None;
    while value.Some?
      invariant |steps| <= n
      invariant value == Up(m, o, |steps| + 1)
      invariant forall i | 0 <= i < |steps| :: Up(m, o, i + 1) == Some(steps[i])
      decreases n - |steps|
    {
      RootedUp(m, o, n, |steps| + 1);
      var orbiter := value.value;
      if orbiter !in steps {
        steps := steps + [orbiter];
      } else {
        var i :| 0 <= i < |steps| && steps[i] == orbiter;
        ChainDistinct(m, o, n, i + 1, |steps| + 1);
        assert false;
      }
      value := if orbiter in m then Some(m[orbiter]) else None;
    }
    RootedUp(m, o, n, |steps| + 1);
    forall i, j | 0 <= i < j < |steps|
      ensures steps[i] != steps[j]
    {
      ChainDistinct(m, o, n, i + 1, j + 1);
    }
    if o in steps {
      var i :| 0 <= i < |steps| && steps[i] == o;
      ChainDistinct(m, o, n, 0, i + 1);
    }
  }

  // ---------------------------------------------------------------------------
  // Part 1
  // ---------------------------------------------------------------------------

  /** Every object of `keys` has a chain that ends. */
  ghost predicate AllRooted(m: OrbitMap, keys: set<string>) {
    forall k | k in keys :: Rooted(m, k)
  }

  /** The orbits of the objects of `keys`, added up. */
  ghost function TotalOrbits(m: OrbitMap, keys: set<string>): nat
    requires AllRooted(m, keys)
    decreases keys
  {
    if keys == {} then 0
    else
      var k :| k in keys;
      OrbitCount(m, k) + TotalOrbits(m, keys - {k})
  }

  /** The total does not depend on the order the objects are taken in. */
  lemma {:induction false} TotalOrbitsRemove(m: OrbitMap, keys: set<string>, k: string)
    requires AllRooted(m, keys) && k in keys
    ensures TotalOrbits(m, keys) == OrbitCount(m, k) + TotalOrbits(m, keys - {k})
    decreases keys
  {
    var k' :| k' in keys && TotalOrbits(m, keys) == OrbitCount(m, k') + TotalOrbits(m, keys - {k'});
    if k' != k {
      TotalOrbitsRemove(m, keys - {k'}, k);
      TotalOrbitsRemove(m, keys - {k}, k');
      assert keys - {k'} - {k} == keys - {k} - {k'};
    }
  }

  /** `part1_impl1`: the orbits of every object that orbits something, in
      whatever order the map yields its keys. */
  method Part1(m: OrbitMap) returns (count: nat)
    requires AllRooted(m, m.Keys)
    ensures count == TotalOrbits(m, m.Keys)
  {
    count := 0;
    var keys := m.Keys;
    while keys != {}
      invariant keys <= m.Keys
      invariant count + TotalOrbits(m, keys) == TotalOrbits(m, m.Keys)
      decreases keys
    {
      var orbiter :| orbiter in keys;
      TotalOrbitsRemove(m, keys, orbiter);
      var c := CountOrbits(m, orbiter);
      count := count + c;
      keys := keys - {orbiter};
    }
  }

  // ---------------------------------------------------------------------------
  // Part 2
  // ---------------------------------------------------------------------------

  /** The index of `x` in `s` (`IndexSet::get_index_of`). */
  function IndexOf(s: seq<string>, x: string): (r: Option<nat>)
    ensures r.None? <==> x !in s
    ensures r.Some? ==> r.value < |s| && s[r.value] == x && x !in s[..r.value]
  {
    if |s| == 0 then None
    else if s[0] == x then Some(0)
    else
      match IndexOf(s[1..], x)
      case None => None
      case Some(i) =>
        assert s[1..][..i] == s[1..i + 1];
        Some(i + 1)
  }

  /** The first element of `a` that is also in `b` (the first element of
      `a.intersection(b)`). */
  function FirstCommon(a: seq<string>, b: seq<string>): (r: Option<nat>)
    ensures r.None? <==> forall i | 0 <= i < |a| :: a[i] !in b
    ensures r.Some? ==> r.value < |a| && a[r.value] in b
    ensures r.Some? ==> forall i | 0 <= i < r.value :: a[i] !in b
  {
    if |a| == 0 then None
    else if a[0] in b then Some(0)
    else
      match FirstCommon(a[1..], b)
      case None => None
      case Some(i) => Some(i + 1)
  }

  /** The object `i + 1` steps above `a` is the one `j + 1` steps above `b`. */
  predicate Common(m: OrbitMap, a: string, b: string, i: nat, j: nat) {
    Up(m, a, i + 1).Some? && Up(m, a, i + 1) == Up(m, b, j + 1)
  }

  /** The nearest common object found by walking up from `a` is also the
      closest by transfers: any other object above both is at least as many
      steps away in total. */
  lemma NearestIsClosest(m: OrbitMap, a: string, b: string, i: nat, j: nat, i': nat, j': nat)
    requires Rooted(m, b)
    requires Common(m, a, b, i, j) && Common(m, a, b, i', j')
    requires forall i'': nat, j'': nat | i'' < i :: !Common(m, a, b, i'', j'')
    ensures i + j <= i' + j'
  {
    if i' >= i {
      var nb := OrbitCount(m, b);
      var x := Up(m, a, i + 1).value;
      UpShift(m, a, i + 1, i' - i);
      UpShift(m, b, j + 1, i' - i);
      assert Up(m, b, j + 1 + (i' - i)) == Up(m, b, j' + 1);
      RootedUp(m, b, nb, j + 1 + (i' - i));
      RootedUp(m, b, nb, j' + 1);
      if j + 1 + (i' - i) < j' + 1 {
        ChainDistinct(m, b, nb, j + 1 + (i' - i), j' + 1);
      } else if j' + 1 < j + 1 + (i' - i) {
        ChainDistinct(m, b, nb, j' + 1, j + 1 + (i' - i));
      }
    }
  }

  /** The transfers from what `you` orbits to what `santa` orbits: the index
      of the first object above `santa` that is also above `you`, in each of
      the two chains. */
  method Transfers(m: OrbitMap, santa: string, you: string) returns (r: Result<nat, Day6Failure>)
    requires Rooted(m, santa) && Rooted(m, you)
    ensures r.Err? <==> forall i: nat, j: nat :: !Common(m, santa, you, i, j)
    ensures r.Err? ==> r.error == NoCommonObject
    ensures r.Ok? ==> exists i: nat, j: nat ::
      && Common(m, santa, you, i, j) && r.value == i + j
      && forall i'': nat, j'': nat | i'' < i :: !Common(m, santa, you, i'', j'')
    ensures r.Ok? ==> forall i: nat, j: nat :: Common(m, santa, you, i, j) ==> r.value <= i + j
  {
    var santaSteps := TraceOrbits(m, santa);
    var mySteps := TraceOrbits(m, you);
    ghost var ns, ny := OrbitCount(m, santa), OrbitCount(m, you);
    match FirstCommon(santaSteps, mySteps)
    case None =>
      forall i: nat, j: nat
        ensures !Common(m, santa, you, i, j)
      {
        RootedUp(m, santa, ns, i + 1);
        RootedUp(m, you, ny, j + 1);
        if i < |santaSteps| && j < |mySteps| {
          assert santaSteps[i] !in mySteps;
          assert mySteps[j] != santaSteps[i];
        }
      }
      r := Err(NoCommonObject);
    case Some(i) =>
      var first := santaSteps[i];
      var j := IndexOf(mySteps, first).value;
      assert Common(m, santa, you, i, j);
      forall i'': nat, j'': nat | i'' < i
        ensures !Common(m, santa, you, i'', j'')
      {
        RootedUp(m, you, ny, j'' + 1);
        if j'' < |mySteps| {
          assert santaSteps[i''] !in mySteps;
          assert mySteps[j''] != santaSteps[i''];
        }
      }
      forall i': nat, j': nat | Common(m, santa, you, i', j')
        ensures i + j <= i' + j'
      {
        NearestIsClosest(m, santa, you, i, j, i', j');
      }
      r := Ok(i + j);
  }

  /** `part2_impl1`: the transfers between YOU and SAN. */
  method Part2(m: OrbitMap) returns (r: Result<nat, Day6Failure>)
    requires Rooted(m, "SAN") && Rooted(m, "YOU")
    ensures r.Err? <==> forall i: nat, j: nat :: !Common(m, "SAN", "YOU", i, j)
    ensures r.Ok? ==> forall i: nat, j: nat :: Common(m, "SAN", "YOU", i, j) ==> r.value <= i + j
    ensures r.Ok? ==> exists i: nat, j: nat :: Common(m, "SAN", "YOU", i, j) && r.value == i + j
  {
    r := Transfers(m, "SAN", "YOU");
  }
}
