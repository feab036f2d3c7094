/** Day 8 (src/day8.rs): the Space Image Format.  The digits of the input
    are cut into layers of 25 x 6 pixels; part 1 checks the layer with the
    fewest 0s, part 2 composes the layers (0 black, 1 white, 2 transparent)
    into text. */
module Day8 {
  import opened Wrappers

  const WIDTH: nat := 25
  const HEIGHT: nat := 6
  /** The pixels of one layer. */
  const SIZE: nat := WIDTH * HEIGHT
  /** The character drawn for a white pixel. */
  const BLOCK: char := '█'

  datatype Day8Failure = UnknownPixel(value: int)

  // ---------------------------------------------------------------------------
  // Counting
  // ---------------------------------------------------------------------------

  /** `count_occurrences`: how many elements of `s` equal `v`. */
  function Count<T(==)>(s: seq<T>, v: T): nat {
    if |s| == 0 then 0 else Count(s[..|s| - 1], v) + if s[|s| - 1] == v then 1 else 0
  }

  /** The count is the multiplicity of `v` in `s`, so at most its length. */
  lemma {:induction false} CountIsMultiplicity<T>(s: seq<T>, v: T)
    ensures Count(s, v) == multiset(s)[v]
    ensures Count(s, v) <= |s|
    decreases |s|
  {
    if |s| > 0 {
      CountIsMultiplicity(s[..|s| - 1], v);
      assert s == s[..|s| - 1] + [s[|s| - 1]];
    }
  }

  // ---------------------------------------------------------------------------
  // The generator
  // ---------------------------------------------------------------------------

  predicate IsDigit(c: char) {
    '0' <= c <= '9'
  }

  /** The digit characters of `input` as numbers, in order; everything else
      (line breaks included) is skipped. */
  function DigitsOf(input: string): (d: seq<int>)
    ensures |d| <= |input|
    ensures forall i | 0 <= i < |d| :: 0 <= d[i] <= 9
  {
    if |input| == 0 then []
    else
      var c := input[|input| - 1];
      DigitsOf(input[..|input| - 1]) + if IsDigit(c) then [c as int - '0' as int] else []
  }

  /** Digits are read piece by piece: the digits of a text are those of its
      parts, and a text of digits only gives one number per character. */
  lemma {:induction false} DigitsOfAppend(a: string, b: string)
    ensures DigitsOf(a + b) == DigitsOf(a) + DigitsOf(b)
    decreases |b|
  {
    if |b| == 0 {
      assert a + b == a;
    } else {
      assert (a + b)[..|a + b| - 1] == a + b[..|b| - 1];
      DigitsOfAppend(a, b[..|b| - 1]);
    }
  }

  lemma {:induction false} DigitsOfDigits(input: string)
    requires forall i | 0 <= i < |input| :: IsDigit(input[i])
    ensures |DigitsOf(input)| == |input|
    ensures forall i | 0 <= i < |input| :: DigitsOf(input)[i] == input[i] as int - '0' as int
    decreases |input|
  {
    if |input| > 0 {
      DigitsOfDigits(input[..|input| - 1]);
    }
  }

  /** The layers laid end to end. */
  function Flatten(layers: seq<seq<int>>): seq<int> {
    if |layers| == 0 then [] else Flatten(layers[..|layers| - 1]) + layers[|layers| - 1]
  }

  /** `gen`: as many whole layers as the digits fill, layer `i` being digits
      `SIZE * i` up to `SIZE * (i + 1)`; a trailing partial layer is
      dropped. */
  method Gen(input: string) returns (layers: seq<seq<int>>)
    ensures var d := DigitsOf(input);
      && |layers| == |d| / SIZE
      && (forall i | 0 <= i < |layers| :: layers[i] == d[SIZE * i..SIZE * (i + 1)])
      && Flatten(layers) == d[..SIZE * |layers|]
  {
    var digits := DigitsOf(input);
    var layerCount := |digits| / SIZE;
    layers := [];
    for i := 0 to layerCount
      invariant |layers| == i
      invariant forall k | 0 <= k < i :: layers[k] == digits[SIZE * k..SIZE * (k + 1)]
      invariant Flatten(layers) == digits[..SIZE * i]
    {
      var first := i * WIDTH * HEIGHT;
      var last := first + WIDTH * HEIGHT;
      assert first == SIZE * i && last == SIZE * (i + 1) <= |digits|;
      assert digits[..SIZE * (i + 1)] == digits[..SIZE * i] + digits[SIZE * i..SIZE * (i + 1)];
      ghost var done := layers;
      layers := layers + [digits[first..last]];
      assert layers[..i] == done;
    }
  }

  // ---------------------------------------------------------------------------
  // Part 1
  // ---------------------------------------------------------------------------

  /** `part1_impl1`: the first layer with the fewest 0s (a later layer must
      have strictly fewer to replace it); the answer is its count of 1s times
      its count of 2s, or 0 without layers. */
  method Part1(layers: seq<seq<int>>) returns (r: nat)
    ensures |layers| == 0 ==> r == 0
    ensures |layers| > 0 ==> exists k | 0 <= k < |layers| ::
      && (forall j | 0 <= j < |layers| :: Count(layers[k], 0) <= Count(layers[j], 0))
      && (forall j | 0 <= j < k :: Count(layers[k], 0) < Count(layers[j], 0))
      && r == Count(layers[k], 1) * Count(layers[k], 2)
  {
    var min: Option<(nat, seq<int>)> := None;
    ghost var at := 0;
    for i := 0 to |layers|
      invariant i == 0 <==> min.None?
      invariant min.Some? ==> at < i && min.value == (Count(layers[at], 0), layers[at])
      invariant min.Some? ==> forall j | 0 <= j < i :: Count(layers[at], 0) <= Count(layers[j], 0)
      invariant min.Some? ==> forall j | 0 <= j < at :: Count(layers[at], 0) < Count(layers[j], 0)
    {
      var count := Count(layers[i], 0);
      if min.None? || count < min.value.0 {
        min := Some((count, layers[i]));
        at := i;
      }
    }
    var chosen := if min.Some? then min.value.1 else [];
    r := Count(chosen, 1) * Count(chosen, 2);
  }

  // ---------------------------------------------------------------------------
  // Part 2
  // ---------------------------------------------------------------------------

  /** What a visible pixel is drawn as. */
  function Glyph(v: int): char
    requires v == 0 || v == 1
  {
    if v == 0 then ' ' else BLOCK
  }

  /** Pixel `p` seen through layers `i..`: the first layer whose pixel is not
      transparent decides it; an unknown value there is an error, and a pixel
      transparent in every layer draws nothing. */
  function Pixel(layers: seq<seq<int>>, p: nat, i: nat): (r: Result<string, Day8Failure>)
    requires forall k | 0 <= k < |layers| :: p < |layers[k]|
    decreases |layers| - i
    ensures r.Ok? ==> |r.value| <= 1 && '\n' !in r.value
  {
    if i >= |layers| then Ok([])
    else
      var v := layers[i][p];
      if v == 0 || v == 1 then Ok([Glyph(v)])
      else if v == 2 then Pixel(layers, p, i + 1)
      else Err(UnknownPixel(v))
  }

  /** A pixel draws nothing iff it is transparent in every layer; otherwise
      the first layer where it is not transparent draws it, black for 0 and
      white for 1, or stops the display with an unknown value. */
  lemma {:induction false} PixelMeaning(layers: seq<seq<int>>, p: nat, i: nat)
    requires forall k | 0 <= k < |layers| :: p < |layers[k]|
    decreases |layers| - i
    ensures var r := Pixel(layers, p, i);
      r.Ok? && r.value == [] <==> forall k | i <= k < |layers| :: layers[k][p] == 2
    ensures var r := Pixel(layers, p, i);
      r.Ok? && r.value != [] ==> exists k | i <= k < |layers| ::
        && (forall k' | i <= k' < k :: layers[k'][p] == 2)
        && (layers[k][p] == 0 || layers[k][p] == 1)
        && r.value == [Glyph(layers[k][p])]
    ensures var r := Pixel(layers, p, i);
      r.Err? ==> exists k | i <= k < |layers| ::
        && (forall k' | i <= k' < k :: layers[k'][p] == 2)
        && layers[k][p] !in {0, 1, 2}
        && r.error == UnknownPixel(layers[k][p])
  {
    if i < |layers| && layers[i][p] == 2 {
      PixelMeaning(layers, p, i + 1);
    }
  }

  /** The first `w` pixels of row `y`. */
  function Row(layers: seq<seq<int>>, y: nat, w: nat): Result<string, Day8Failure>
    requires y < HEIGHT && w <= WIDTH
    requires forall k | 0 <= k < |layers| :: SIZE <= |layers[k]|
  {
    if w == 0 then Ok([])
    else
      match Row(layers, y, w - 1)
      case Err(e) => Err(e)
      case Ok(s) =>
        match Pixel(layers, y * WIDTH + w - 1, 0)
        case Err(e) => Err(e)
        case Ok(c) => Ok(s + c)
  }

  /** The display after `h` rows: a line break, then each row followed by a
      line break; the first unknown pixel in row-major order is the error. */
  function Screen(layers: seq<seq<int>>, h: nat): Result<string, Day8Failure>
    requires h <= HEIGHT
    requires forall k | 0 <= k < |layers| :: SIZE <= |layers[k]|
  {
    if h == 0 then Ok("\n")
    else
      match Screen(layers, h - 1)
      case Err(e) => Err(e)
      case Ok(s) =>
        match Row(layers, h - 1, WIDTH)
        case Err(e) => Err(e)
        case Ok(row) => Ok(s + row + "\n")
  }

  /** A row draws at most one character per pixel and never a line break. */
  lemma {:induction false} RowShape(layers: seq<seq<int>>, y: nat, w: nat)
    requires y < HEIGHT && w <= WIDTH
    requires forall k | 0 <= k < |layers| :: SIZE <= |layers[k]|
    ensures Row(layers, y, w).Ok? ==> |Row(layers, y, w).value| <= w && '\n' !in Row(layers, y, w).value
  {
    if w > 0 {
      RowShape(layers, y, w - 1);
    }
  }

  /** Counting over a concatenation adds the counts of the parts. */
  lemma {:induction false} CountAppend<T>(a: seq<T>, b: seq<T>, v: T)
    ensures Count(a + b, v) == Count(a, v) + Count(b, v)
    decreases |b|
  {
    if |b| == 0 {
      assert a + b == a;
    } else {
      assert (a + b)[..|a + b| - 1] == a + b[..|b| - 1];
      CountAppend(a, b[..|b| - 1], v);
    }
  }

  /** The display starts with a line break and every row ends with one: it
      holds exactly `h + 1` line breaks. */
  lemma {:induction false} ScreenLines(layers: seq<seq<int>>, h: nat)
    requires h <= HEIGHT
    requires forall k | 0 <= k < |layers| :: SIZE <= |layers[k]|
    ensures Screen(layers, h).Ok? ==> var s := Screen(layers, h).value;
      && |s| > 0 && s[0] == '\n' && s[|s| - 1] == '\n'
      && Count(s, '\n') == h + 1
  {
    if h > 0 && Screen(layers, h).Ok? {
      ScreenLines(layers, h - 1);
      RowShape(layers, h - 1, WIDTH);
      var s := Screen(layers, h - 1).value;
      var row := Row(layers, h - 1, WIDTH).value;
      CountIsMultiplicity(row, '\n');
      CountAppend(s, row, '\n');
      CountAppend(s + row, "\n", '\n');
      assert Count("\n", '\n') == 1;
    }
  }

  /** A row has at most `WIDTH` characters between its line breaks. */
  lemma {:induction false} ScreenLength(layers: seq<seq<int>>, h: nat)
    requires h <= HEIGHT
    requires forall k | 0 <= k < |layers| :: SIZE <= |layers[k]|
    ensures Screen(layers, h).Ok? ==> |Screen(layers, h).value| <= 1 + 26 * h
  {
    if h > 0 && Screen(layers, h).Ok? {
      ScreenLength(layers, h - 1);
      RowShape(layers, h - 1, WIDTH);
    }
  }

  /** An error met in a row ends the row with that error. */
  lemma {:induction false} RowErrStays(layers: seq<seq<int>>, y: nat, w: nat, w': nat)
    requires y < HEIGHT && w <= w' <= WIDTH
    requires forall k | 0 <= k < |layers| :: SIZE <= |layers[k]|
    requires Row(layers, y, w).Err?
    ensures Row(layers, y, w') == Row(layers, y, w)
    decreases w' - w
  {
    if w < w' {
      RowErrStays(layers, y, w, w' - 1);
    }
  }

  /** An error met in a row is the error of the whole display. */
  lemma {:induction false} ScreenErrStays(layers: seq<seq<int>>, h: nat, h': nat)
    requires h <= h' <= HEIGHT
    requires forall k | 0 <= k < |layers| :: SIZE <= |layers[k]|
    requires Screen(layers, h).Err?
    ensures Screen(layers, h') == Screen(layers, h)
    decreases h' - h
  {
    if h < h' {
      ScreenErrStays(layers, h, h' - 1);
    }
  }

  /** The inner loop of `part2_impl1`: the layers from the top down until
      one is not transparent at pixel `p`. */
  method DrawPixel(layers: seq<seq<int>>, p: nat) returns (r: Result<string, Day8Failure>)
    requires forall k | 0 <= k < |layers| :: p < |layers[k]|
    ensures r == Pixel(layers, p, 0)
  {
    var i := 0;
    while i < |layers|
      invariant 0 <= i <= |layers|
      invariant Pixel(layers, p, 0) == Pixel(layers, p, i)
    {
      var pixel := layers[i][p];
      if pixel == 0 || pixel == 1 {
        return Ok([Glyph(pixel)]);
      } else if pixel != 2 {
        return Err(UnknownPixel(pixel));
      }
      i := i + 1;
    }
    r := Ok([]);
  }

  /** `part2_impl1`: pixel by pixel in row-major order, take the first layer
      whose pixel is not transparent; a line break starts the text and ends
      every row. */
  method Part2(layers: seq<seq<int>>) returns (r: Result<string, Day8Failure>)
    requires forall k | 0 <= k < |layers| :: SIZE <= |layers[k]|
    ensures r == Screen(layers, HEIGHT)
  {
    var display := "\n";
    for y := 0 to HEIGHT
      invariant Screen(layers, y) == Ok(display)
    {
      ghost var before := display;
      for x := 0 to WIDTH
        invariant Row(layers, y, x).Ok? && display == before + Row(layers, y, x).value
      {
        var p := y * WIDTH + x;
        assert p < SIZE;
        var drawn := DrawPixel(layers, p);
        match drawn
        case Err(e) =>
          RowErrStays(layers, y, x + 1, WIDTH);
          ScreenErrStays(layers, y + 1, HEIGHT);
          return Err(e);
        case Ok(c) =>
          display := display + c;
      }
      display := display + "\n";
    }
    r := Ok(display);
  }
}
