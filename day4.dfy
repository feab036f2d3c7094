/** Day 4 (src/day4.rs): six-digit passwords whose digits never decrease
    from left to right and which hold two equal adjacent digits (part 1), or
    a group of exactly two equal adjacent digits (part 2). */
module Day4 {
  import opened Intcode

  /** The smallest and largest numbers with six decimal digits. */
  const LOW: nat := 100000
  const HIGH: nat := 999999

  /** Digit `k` of `num`, 0 being the least significant (`digit_at_pos`). */
  function Digit(num: nat, k: nat): (r: int)
    ensures 0 <= r <= 9
  {
    DigitAtPos(num, k).value
  }

  /** The `digits` array of `valid`: index 0 holds the last digit, index 5
      the first. */
  function Digits(num: nat): (d: seq<int>)
    ensures |d| == 6
    ensures forall k | 0 <= k < 6 :: d[k] == Digit(num, k)
  {
    seq(6, k requires 0 <= k < 6 => Digit(num, k))
  }

  /** The value of the `k` lowest digits of `num`, read as a decimal number. */
  function LowValue(num: nat, k: nat): int {
    if k == 0 then 0 else LowValue(num, k - 1) + Digit(num, k - 1) * Pow10(k - 1)
  }

  /** The `k` lowest digits are the remainder of the division by 10^k. */
  lemma {:induction false} LowValueIsRemainder(num: nat, k: nat)
    ensures LowValue(num, k) == num % Pow10(k)
  {
    if k > 0 {
      LowValueIsRemainder(num, k - 1);
      SplitDigit(num, Pow10(k - 1));
    }
  }

  /** The six digits spell a six-digit number back, and its first digit is
      not 0. */
  lemma DigitsSpellNumber(num: nat)
    requires LOW <= num <= HIGH
    ensures LowValue(num, 6) == num
    ensures Digits(num)[5] >= 1
  {
    LowValueIsRemainder(num, 6);
    assert Pow10(6) == 1000000;
    assert Pow10(5) == 100000;
  }

  /** Read from left to right (index 5 down to 0), no digit is smaller than
      the one before it. */
  predicate NonDecreasing(d: seq<int>)
    requires |d| == 6
  {
    forall k | 0 <= k < 5 :: d[k] >= d[k + 1]
  }

  /** Digits `k - 1` and `k` are equal. */
  predicate PairAt(d: seq<int>, k: int)
    requires |d| == 6
  {
    1 <= k <= 5 && d[k] == d[k - 1]
  }

  /** Digits `k - 1` and `k` are equal and are a whole group: neither
      neighbour outside the pair has the same digit. */
  predicate ExactPairAt(d: seq<int>, k: int)
    requires |d| == 6
  {
    && PairAt(d, k)
    && (k == 5 || d[k + 1] != d[k])
    && (k == 1 || d[k - 2] != d[k - 1])
  }

  predicate HasPair(d: seq<int>)
    requires |d| == 6
  {
    exists k | 1 <= k <= 5 :: PairAt(d, k)
  }

  predicate HasExactPair(d: seq<int>)
    requires |d| == 6
  {
    exists k | 1 <= k <= 5 :: ExactPairAt(d, k)
  }

  /** Whether `num` is a password: non-decreasing digits, and an equal
      adjacent pair (with `acceptGroups`) or a group of exactly two. */
  predicate IsValid(num: nat, acceptGroups: bool) {
    var d := Digits(num);
    NonDecreasing(d) && (if acceptGroups then HasPair(d) else HasExactPair(d))
  }

  /** A group of exactly two is an adjacent pair, so a part-2 password is a
      part-1 password. */
  lemma ExactIsPair(num: nat)
    ensures IsValid(num, false) ==> IsValid(num, true)
  {
    var d := Digits(num);
    if HasExactPair(d) {
      var k :| 1 <= k <= 5 && ExactPairAt(d, k);
      assert PairAt(d, k);
    }
  }

  /** `valid`: the digits are taken least significant first, then scanned
      from the first digit to the last, failing at once on a decrease; with
      `acceptGroups` any equal neighbour counts, otherwise only a pair whose
      outer neighbours differ (or are missing). */
  method Valid(num: nat, acceptGroups: bool) returns (ok: bool)
    requires LOW <= num <= HIGH
    ensures ok == IsValid(num, acceptGroups)
  {
    var digits := new int[6];
    for idx := 0 to 6
      invariant forall k | 0 <= k < idx :: digits[k] == Digit(num, k)
    {
      digits[idx] := DigitAtPos(num, idx).value;
    }
    ghost var d := Digits(num);
    assert digits[..] == d;
    var adjacent := false;
    var i := 6;
    while i > 0
      invariant 0 <= i <= 6
      invariant forall k | i <= k < 5 :: d[k] >= d[k + 1]
      invariant acceptGroups ==> (adjacent <==> exists k | i < k <= 5 :: PairAt(d, k))
      invariant !acceptGroups ==> (adjacent <==> exists k | i <= k <= 5 :: ExactPairAt(d, k))
    {
      i := i - 1;
      var current := digits[i];
      if i + 1 < 6 {
        var previous := digits[i + 1];
        if current < previous {
          assert !NonDecreasing(d) by {
            assert d[i] < d[i + 1];
          }
          return false;
        }
        if acceptGroups && current == previous {
          adjacent := true;
          assert PairAt(d, i + 1);
        }
      }
      if !acceptGroups && !adjacent {
        if 1 <= i && current == digits[i - 1] && (i + 1 == 6 || digits[i + 1] != current)
           && (i < 2 || digits[i - 2] != digits[i - 1])
        {
          adjacent := true;
          assert ExactPairAt(d, i);
        }
      }
    }
    ok := adjacent;
  }

  /** A number written with the decimal digits `d` (least significant
      first) has exactly those digits. */
  lemma {:induction false} DigitsOfNumeral(num: nat, d: seq<int>)
    requires |d| == 6 && forall k | 0 <= k < 6 :: 0 <= d[k] <= 9
    requires num == d[0] + 10 * d[1] + 100 * d[2] + 1000 * d[3] + 10000 * d[4] + 100000 * d[5]
    ensures Digits(num) == d
  {
    var h1 := d[1] + 10 * d[2] + 100 * d[3] + 1000 * d[4] + 10000 * d[5];
    var h2 := d[2] + 10 * d[3] + 100 * d[4] + 1000 * d[5];
    var h3 := d[3] + 10 * d[4] + 100 * d[5];
    var h4 := d[4] + 10 * d[5];
    var h5 := d[5];
    assert Pow10(1) == 10 && Pow10(2) == 100 && Pow10(3) == 1000;
    assert Pow10(4) == 10000 && Pow10(5) == 100000;
    DivUnique(num, 1, num, 0);
    DivUnique(num, 10, h1, d[0]);
    DivUnique(num, 100, h2, d[0] + 10 * d[1]);
    DivUnique(num, 1000, h3, d[0] + 10 * d[1] + 100 * d[2]);
    DivUnique(num, 10000, h4, d[0] + 10 * d[1] + 100 * d[2] + 1000 * d[3]);
    DivUnique(num, 100000, h5, d[0] + 10 * d[1] + 100 * d[2] + 1000 * d[3] + 10000 * d[4]);
    DivUnique(num, 10, h1, d[0]);
    DivUnique(h1, 10, h2, d[1]);
    DivUnique(h2, 10, h3, d[2]);
    DivUnique(h3, 10, h4, d[3]);
    DivUnique(h4, 10, h5, d[4]);
    DivUnique(h5, 10, 0, d[5]);
  }

  // The tests on `valid`, one number at a time.

  lemma Example123356()
    ensures IsValid(123356, true) && IsValid(123356, false)
  {
    var d := [6, 5, 3, 3, 2, 1];
    DigitsOfNumeral(123356, d);
    assert PairAt(d, 3);
    assert ExactPairAt(d, 3);
  }

  lemma Example123566()
    ensures IsValid(123566, true)
  {
    var d := [6, 6, 5, 3, 2, 1];
    DigitsOfNumeral(123566, d);
    assert PairAt(d, 1);
  }

  lemma Example654321()
    ensures !IsValid(654321, true) && !IsValid(654321, false)
  {
    var d := [1, 2, 3, 4, 5, 6];
    DigitsOfNumeral(654321, d);
    assert d[0] < d[1];
  }

  lemma Example654421()
    ensures !IsValid(654421, true) && !IsValid(654421, false)
  {
    var d := [1, 2, 4, 4, 5, 6];
    DigitsOfNumeral(654421, d);
    assert d[0] < d[1];
  }

  lemma Example123366()
    ensures IsValid(123366, false)
  {
    var d := [6, 6, 3, 3, 2, 1];
    DigitsOfNumeral(123366, d);
    assert ExactPairAt(d, 1);
  }

  lemma Example122233()
    ensures IsValid(122233, false)
  {
    var d := [3, 3, 2, 2, 2, 1];
    DigitsOfNumeral(122233, d);
    assert ExactPairAt(d, 1);
  }

  /** 122234 has a group of three 2s and no group of exactly two. */
  lemma Example122234()
    ensures IsValid(122234, true) && !IsValid(122234, false)
  {
    var d := [4, 3, 2, 2, 2, 1];
    DigitsOfNumeral(122234, d);
    assert PairAt(d, 3);
    assert !HasExactPair(d) by {
      forall k | 1 <= k <= 5
        ensures !ExactPairAt(d, k)
      {
      }
    }
  }

  /** The numbers between `first` and `last`, both included, that `p` keeps. */
  function Kept(first: nat, last: nat, p: nat -> bool): set<nat> {
    set i: nat | first <= i <= last && p(i)
  }

  /** The tally a filter-count over `first..=last` keeps, counted up to
      `last`. */
  function CountKept(first: nat, last: int, p: nat -> bool): nat
    decreases last - first
  {
    if last < first then 0
    else CountKept(first, last - 1, p) + (if p(last) then 1 else 0)
  }

  /** Extending the range by one number adds that number when `p` keeps it. */
  lemma KeptStep(first: nat, last: nat, p: nat -> bool)
    requires first <= last
    ensures Kept(first, last, p) == (if last == first then {} else Kept(first, last - 1, p)) + (if p(last) then {last} else {})
    ensures last !in (if last == first then {} else Kept(first, last - 1, p))
  {
  }

  /** The tally is the number of kept elements of the range. */
  lemma {:induction false} CountKeptIsCard(first: nat, last: nat, p: nat -> bool)
    ensures CountKept(first, last, p) == |Kept(first, last, p)|
    decreases last - first
  {
    if last < first {
      assert Kept(first, last, p) == {};
    } else {
      KeptStep(first, last, p);
      if last != first {
        CountKeptIsCard(first, last - 1, p);
      }
    }
  }

  /** Whether `num` is a password for the given mode. */
  function Password(acceptGroups: bool): nat -> bool {
    (num: nat) => IsValid(num, acceptGroups)
  }

  /** The passwords between `first` and `last`, both included. */
  function ValidIn(first: nat, last: nat, acceptGroups: bool): set<nat> {
    Kept(first, last, Password(acceptGroups))
  }

  /** Part 2 counts a subset of what part 1 counts over the same range, so
      never more. */
  lemma ExactCountAtMostPairCount(first: nat, last: nat)
    ensures ValidIn(first, last, false) <= ValidIn(first, last, true)
    ensures |ValidIn(first, last, false)| <= |ValidIn(first, last, true)|
  {
    var exact, pair := ValidIn(first, last, false), ValidIn(first, last, true);
    forall i: nat | i in exact
      ensures i in pair
    {
      ExactIsPair(i);
    }
    assert pair == exact + (pair - exact);
  }

  /** The filter-count of `valid` over `first..=last`, as a running tally;
      every number is a six-digit one, as `valid` asks. */
  method Tally(first: nat, last: nat, acceptGroups: bool) returns (count: nat)
    requires last < first || (LOW <= first && last <= HIGH)
    ensures count == CountKept(first, last, Password(acceptGroups))
  {
    count := 0;
    if last < first {
      return;
    }
    for i := first to last + 1
      invariant count == CountKept(first, i - 1, Password(acceptGroups))
    {
      var ok := Valid(i, acceptGroups);
      if ok {
        count := count + 1;
      }
    }
  }

  /** The count of `valid` numbers in `first..=last`. */
  method CountIn(first: nat, last: nat, acceptGroups: bool) returns (count: nat)
    requires last < first || (LOW <= first && last <= HIGH)
    ensures count == |ValidIn(first, last, acceptGroups)|
  {
    count := Tally(first, last, acceptGroups);
    CountKeptIsCard(first, last, Password(acceptGroups));
  }

  /** `part1_impl1`: the passwords with an equal adjacent pair. */
  method Part1(first: nat, last: nat) returns (r: nat)
    requires last < first || (LOW <= first && last <= HIGH)
    ensures r == |ValidIn(first, last, true)|
  {
    r := CountIn(first, last, true);
  }

  /** `part2_impl1`: the passwords with a group of exactly two. */
  method Part2(first: nat, last: nat) returns (r: nat)
    requires last < first || (LOW <= first && last <= HIGH)
    ensures r == |ValidIn(first, last, false)|
  {
    r := CountIn(first, last, false);
  }
}
