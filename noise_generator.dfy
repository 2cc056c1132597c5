/**
 * NoiseGenerator.ts and its twin NoiseGenerator.js: a two-draw hash noise,
 * its multi-octave sum, and a Gaussian-weighted blur of a real-valued grid.
 * The two files differ only in the blur, whose .js version rounds every
 * output cell; both blurs share the cell computation BlurAt.
 *
 * `Math.sin`, `Math.sqrt` and `Math.exp` are the given functions of a
 * MathLib; all other arithmetic is exact.
 */
module NoiseGenerator {
  import opened JsNumeric
  import opened SeededRandom
  import opened Grids

  // ---------------------------------------------------------------------------
  // generateSimplexNoise

  /** `hash - Math.floor(hash)`: a value in [0, 1) that differs from h by an integer. */
  function Fract(h: real): (r: real)
    ensures 0.0 <= r < 1.0
    ensures (h - r).Floor as real == h - r
  {
    FloorBounds(h);
    FloorOfInteger(h.Floor);
    assert h - (h - h.Floor as real) == h.Floor as real;
    h - h.Floor as real
  }

  lemma FloorBounds(h: real)
    ensures h.Floor as real <= h < h.Floor as real + 1.0
  {
  }

  lemma FloorOfInteger(k: int)
    ensures (k as real).Floor == k
  {
  }

  /** The jitter `next() * 0.2` for the stored state t. */
  function Jitter(t: State): (j: real)
    ensures 0.0 <= j < 0.2
  {
    Value(t) * 0.2
  }

  function Hash(lib: MathLib, xp: real, yp: real, scale: real): real {
    lib.sin(xp * 12.9898 * scale + yp * 78.233 * scale) * 43758.5453
  }

  /**
   * The sample taken at (x, y) from a generator in state s: the x jitter is the
   * first draw and the y jitter the second.
   */
  function SimplexValue(lib: MathLib, x: real, y: real, scale: real, s: State): (r: real)
    ensures 0.0 <= r < 1.0
  {
    var s1 := NextState(s);
    var s2 := NextState(s1);
    Fract(Hash(lib, x + Jitter(s1), y + Jitter(s2), scale))
  }

  method GenerateSimplexNoise(x: real, y: real, rng: Rng, scale: real, lib: MathLib) returns (r: real)
    modifies rng
    ensures rng.seed == Advance(old(rng.seed), 2)
    ensures r == SimplexValue(lib, x, y, scale, old(rng.seed))
  {
    ghost var s0 := rng.seed;
    var dx := rng.Next();
    ghost var s1 := rng.seed;
    assert s1 == Advance(s0, 1);
    var xPrime := x + dx * 0.2;
    assert xPrime == x + Jitter(s1);
    var dy := rng.Next();
    ghost var s2 := rng.seed;
    assert s2 == Advance(s0, 2);
    var yPrime := y + dy * 0.2;
    assert yPrime == y + Jitter(s2);
    var hash := Hash(lib, xPrime, yPrime, scale);
    r := Fract(hash);
  }

  // ---------------------------------------------------------------------------
  // generateOctaveNoise

  function Pow(b: real, n: nat): (r: real)
    ensures b >= 0.0 ==> r >= 0.0
  {
    if n == 0 then 1.0
    else
      var q := Pow(b, n - 1);
      assert b >= 0.0 ==> q * b >= 0.0;
      q * b
  }

  /** The sum of the amplitudes of the first n layers, `persistence^0 + ... + persistence^(n-1)`. */
  function GeomSum(p: real, n: nat): (r: real)
    ensures p >= 0.0 && n >= 1 ==> r >= 1.0
    ensures p >= 0.0 ==> r >= 0.0
  {
    if n == 0 then 0.0 else GeomSum(p, n - 1) + Pow(p, n - 1)
  }

  /** A coordinate of a layer: `((v + offset) * frequency) / scale`. */
  function Coord(v: real, offset: real, frequency: real, scale: real): real
    requires scale != 0.0
  {
    (v + offset) * frequency / scale
  }

  /**
   * Layer i sampled from a generator in state s: offsetX and offsetY are the
   * first two draws, the sampler's two jitters the next two; the coordinates
   * are scaled by the frequency 2^i.
   */
  function Layer(lib: MathLib, x: real, y: real, scale: real, s: State, i: nat): (r: real)
    requires scale != 0.0
    ensures 0.0 <= r < 1.0
  {
    var s1 := NextState(s);
    var s2 := NextState(s1);
    var frequency := Pow(2.0, i);
    SimplexValue(lib, Coord(x, Value(s1) * 1000.0, frequency, scale), Coord(y, Value(s2) * 1000.0, frequency, scale), 1.0, s2)
  }

  /** The samples of the first n layers, layer i taken after 4 * i draws from s. */
  function Layers(lib: MathLib, x: real, y: real, scale: real, s: State, n: nat): (ls: seq<real>)
    requires scale != 0.0
    ensures |ls| == n
    ensures forall i :: 0 <= i < n ==> 0.0 <= ls[i] < 1.0
  {
    seq(n, i requires 0 <= i < n => Layer(lib, x, y, scale, Advance(s, 4 * i), i))
  }

  /** `total`: samples[i] weighted by the amplitude p^i. */
  function WeightedSum(samples: seq<real>, p: real): real {
    if samples == [] then 0.0
    else WeightedSum(samples[..|samples| - 1], p) + samples[|samples| - 1] * Pow(p, |samples| - 1)
  }

  lemma WeightedSumSnoc(samples: seq<real>, v: real, p: real, amplitude: real)
    requires amplitude == Pow(p, |samples|)
    ensures WeightedSum(samples + [v], p) == WeightedSum(samples, p) + v * amplitude
  {
    assert (samples + [v])[..|samples + [v]| - 1] == samples;
    WeightedStep(WeightedSum(samples, p), Pow(p, |samples + [v]| - 1), amplitude, (samples + [v])[|samples + [v]| - 1], v);
  }

  lemma WeightedStep(w: real, a: real, b: real, x: real, y: real)
    requires a == b && x == y
    ensures w + x * a == w + y * b
  {
  }

  lemma PowSnoc(b: real, n: nat, a: real)
    requires a == Pow(b, n)
    ensures Pow(b, n + 1) == a * b
  {
  }

  /**
   * The value of `generateOctaveNoise` for a generator in state s:
   * total / maxValue, a weighted average of samples in [0, 1), so itself in
   * [0, 1) when the weights are non-negative.
   */
  function OctaveValue(lib: MathLib, x: real, y: real, octaves: nat, p: real, scale: real, s: State): (v: real)
    requires scale != 0.0
    requires GeomSum(p, octaves) != 0.0
    ensures p >= 0.0 ==> 0.0 <= v < 1.0
  {
    var ls := Layers(lib, x, y, scale, s, octaves);
    var t, g := WeightedSum(ls, p), GeomSum(p, octaves);
    if p >= 0.0 then
      WeightedSumBounds(ls, p);
      QuotientInUnit(t, g);
      t / g
    else t / g
  }

  lemma WeightedBelow(v: real, w: real)
    requires 0.0 <= v < 1.0 && w >= 0.0
    ensures 0.0 <= v * w <= w
    ensures w > 0.0 ==> v * w < w
  {
  }

  lemma SumStep(t: real, tPrev: real, g: real, gPrev: real, vw: real, w: real)
    requires t == tPrev + vw && g == gPrev + w
    requires 0.0 <= tPrev <= gPrev && 0.0 <= vw <= w
    ensures 0.0 <= t <= g
    ensures tPrev < gPrev || vw < w ==> t < g
  {
  }

  /** With a non-negative persistence, samples in [0, 1) weigh less than the total weight. */
  lemma {:induction false} WeightedSumBounds(samples: seq<real>, p: real)
    requires p >= 0.0
    requires forall i :: 0 <= i < |samples| ==> 0.0 <= samples[i] < 1.0
    ensures 0.0 <= WeightedSum(samples, p) <= GeomSum(p, |samples|)
    ensures |samples| >= 1 ==> WeightedSum(samples, p) < GeomSum(p, |samples|)
  {
    if samples != [] {
      var n := |samples|;
      var front := samples[..n - 1];
      var v, w := samples[n - 1], Pow(p, n - 1);
      var t, tPrev := WeightedSum(samples, p), WeightedSum(front, p);
      var g, gPrev := GeomSum(p, n), GeomSum(p, n - 1);
      assert t == tPrev + v * w && g == gPrev + w;
      assert 0.0 <= tPrev <= gPrev && (n == 1 || tPrev < gPrev) by {
        WeightedSumBounds(front, p);
      }
      assert 0.0 <= v * w <= w && (n == 1 ==> v * w < w) by {
        WeightedBelow(v, w);
      }
      SumStep(t, tPrev, g, gPrev, v * w, w);
    }
  }

  lemma QuotientInUnit(t: real, g: real)
    requires 0.0 <= t < g
    ensures 0.0 <= t / g < 1.0
  {
    assert t / g * g == t;
  }

  /** One pass of the layer loop up to the sample: the two offsets, then the sampler. */
  method SampleLayer(x: real, y: real, rng: Rng, i: nat, frequency: real, scale: real, lib: MathLib) returns (v: real)
    requires scale != 0.0
    requires frequency == Pow(2.0, i)
    modifies rng
    ensures rng.seed == Advance(old(rng.seed), 4)
    ensures v == Layer(lib, x, y, scale, old(rng.seed), i)
  {
    ghost var s0 := rng.seed;
    var offsetX := rng.Next();
    assert rng.seed == Advance(s0, 1);
    offsetX := offsetX * 1000.0;
    var offsetY := rng.Next();
    offsetY := offsetY * 1000.0;
    ghost var s2 := rng.seed;
    v := GenerateSimplexNoise(Coord(x, offsetX, frequency, scale), Coord(y, offsetY, frequency, scale), rng, 1.0, lib);
    assert s2 == Advance(s0, 2);
    AdvanceAddTo(s0, 2, 2, 4);
  }

  /** The loop variables of `generateOctaveNoise` after i layers sampled from state s. */
  ghost predicate OctaveLoop(lib: MathLib, x: real, y: real, scale: real, p: real, s: State, i: nat,
                             total: real, frequency: real, amplitude: real, maxValue: real)
    requires scale != 0.0
  {
    && frequency == Pow(2.0, i)
    && amplitude == Pow(p, i)
    && maxValue == GeomSum(p, i)
    && total == WeightedSum(Layers(lib, x, y, scale, s, i), p)
  }

  lemma OctaveLoopStep(lib: MathLib, x: real, y: real, scale: real, p: real, s: State, i: nat,
                       total: real, frequency: real, amplitude: real, maxValue: real, v: real)
    requires scale != 0.0
    requires OctaveLoop(lib, x, y, scale, p, s, i, total, frequency, amplitude, maxValue)
    requires v == Layer(lib, x, y, scale, Advance(s, 4 * i), i)
    ensures OctaveLoop(lib, x, y, scale, p, s, i + 1, total + v * amplitude, frequency * 2.0, amplitude * p, maxValue + amplitude)
  {
    var ls := Layers(lib, x, y, scale, s, i);
    assert Layers(lib, x, y, scale, s, i + 1) == ls + [v];
    WeightedSumSnoc(ls, v, p, amplitude);
    PowSnoc(p, i, amplitude);
    PowSnoc(2.0, i, frequency);
  }

  /** The layer loop of `generateOctaveNoise`: the weighted sum of the layers and the weight sum. */
  method SampleOctaves(x: real, y: real, rng: Rng, octaves: nat, persistence: real, scale: real, lib: MathLib)
    returns (total: real, maxValue: real)
    requires scale != 0.0
    modifies rng
    ensures rng.seed == Advance(old(rng.seed), 4 * octaves)
    ensures total == WeightedSum(Layers(lib, x, y, scale, old(rng.seed), octaves), persistence)
    ensures maxValue == GeomSum(persistence, octaves)
  {
    ghost var s0 := rng.seed;
    total := 0.0;
    var frequency := 1.0;
    var amplitude := 1.0;
    maxValue := 0.0;
    var i := 0;
    assert Layers(lib, x, y, scale, s0, 0) == [];
    while i < octaves
      invariant 0 <= i <= octaves
      invariant rng.seed == Advance(s0, 4 * i)
      invariant OctaveLoop(lib, x, y, scale, persistence, s0, i, total, frequency, amplitude, maxValue)
    {
      var v := SampleLayer(x, y, rng, i, frequency, scale, lib);
      AdvanceAddTo(s0, 4 * i, 4, 4 * (i + 1));
      OctaveLoopStep(lib, x, y, scale, persistence, s0, i, total, frequency, amplitude, maxValue, v);
      var weighted := v * amplitude;
      total := total + weighted;
      maxValue := maxValue + amplitude;
      amplitude := amplitude * persistence;
      frequency := frequency * 2.0;
      i := i + 1;
    }
  }

  /**
   * `generateOctaveNoise`: 4 * octaves draws, and the weighted average of the
   * layers. The source divides by the amplitude sum and by scale, which must
   * therefore not be 0 (octaves = 0 gives 0 / 0).
   */
  method GenerateOctaveNoise(x: real, y: real, rng: Rng, octaves: nat, persistence: real, scale: real, lib: MathLib)
    returns (r: real)
    requires scale != 0.0
    requires GeomSum(persistence, octaves) != 0.0
    modifies rng
    ensures rng.seed == Advance(old(rng.seed), 4 * octaves)
    ensures r == OctaveValue(lib, x, y, octaves, persistence, scale, old(rng.seed))
    ensures persistence >= 0.0 ==> 0.0 <= r < 1.0
  {
    ghost var s0 := rng.seed;
    var total, maxValue := SampleOctaves(x, y, rng, octaves, persistence, scale, lib);
    r := total / maxValue;
  }

  // ---------------------------------------------------------------------------
  // generateGaussianKernel

  /** The unnormalised weight of kernel cell (x, y): exp(-d^2 / (2 sigma^2)), d its distance from the centre. */
  function RawWeight(lib: MathLib, size: nat, sigma: real, x: int, y: int): (w: real)
    requires sigma != 0.0
    ensures ExpPositive(lib) ==> w > 0.0
  {
    var center := size / 2;
    var distance := lib.sqrt(((x - center) * (x - center) + (y - center) * (y - center)) as real);
    lib.exp(-(distance * distance) / (2.0 * sigma * sigma))
  }

  /** Row y of the raw kernel. */
  function RawRow(lib: MathLib, size: nat, sigma: real, y: int): (r: seq<real>)
    requires sigma != 0.0
    ensures |r| == size
    ensures forall x :: 0 <= x < size ==> r[x] == RawWeight(lib, size, sigma, x, y)
  {
    seq(size, x requires 0 <= x < size => RawWeight(lib, size, sigma, x, y))
  }

  /** The kernel as the first loop leaves it: every cell holds its raw weight. */
  function RawKernel(lib: MathLib, size: nat, sigma: real): (k: seq<seq<real>>)
    requires sigma != 0.0
    ensures IsGrid(k, size, size)
    ensures forall y :: 0 <= y < size ==> k[y] == RawRow(lib, size, sigma, y)
    ensures ExpPositive(lib) ==> Positive(k)
  {
    seq(size, y requires 0 <= y < size => RawRow(lib, size, sigma, y))
  }

  /** The sum of a row, added left to right. */
  function RowSum(r: seq<real>): real {
    if r == [] then 0.0 else RowSum(r[..|r| - 1]) + r[|r| - 1]
  }

  /** The sum of a grid, added row by row: the running `sum` of the first loop. */
  function GridSum(g: seq<seq<real>>): real {
    if g == [] then 0.0 else GridSum(g[..|g| - 1]) + RowSum(g[|g| - 1])
  }

  lemma RowSumSnoc(r: seq<real>, v: real)
    ensures RowSum(r + [v]) == RowSum(r) + v
  {
    assert (r + [v])[..|r|] == r;
  }

  lemma GridSumSnoc(g: seq<seq<real>>, r: seq<real>)
    ensures GridSum(g + [r]) == GridSum(g) + RowSum(r)
  {
    assert (g + [r])[..|g|] == g;
  }

  /** Every weight of a kernel is positive. */
  predicate Positive(k: seq<seq<real>>) {
    forall y, x :: 0 <= y < |k| && 0 <= x < |k[y]| ==> k[y][x] > 0.0
  }

  lemma {:induction false} RowSumPositive(r: seq<real>)
    requires forall x :: 0 <= x < |r| ==> r[x] > 0.0
    ensures RowSum(r) >= 0.0
    ensures r != [] ==> RowSum(r) > 0.0
  {
    if r != [] {
      RowSumPositive(r[..|r| - 1]);
    }
  }

  /** A grid of positive weights with at least one cell has a positive sum. */
  lemma {:induction false} GridSumPositive(g: seq<seq<real>>, cols: nat)
    requires IsGrid(g, |g|, cols) && Positive(g)
    ensures GridSum(g) >= 0.0
    ensures |g| > 0 && cols > 0 ==> GridSum(g) > 0.0
  {
    if g != [] {
      GridSumPositive(g[..|g| - 1], cols);
      RowSumPositive(g[|g| - 1]);
    }
  }

  /** Every cell of a row divided by t. */
  function DivRow(r: seq<real>, t: real): (d: seq<real>)
    requires t != 0.0
    ensures |d| == |r|
    ensures forall x :: 0 <= x < |r| ==> d[x] == r[x] / t
  {
    seq(|r|, x requires 0 <= x < |r| => r[x] / t)
  }

  /** Every cell of g divided by t: the second loop's `kernel[y][x] /= sum`. */
  function Divided(g: seq<seq<real>>, t: real): (d: seq<seq<real>>)
    requires t != 0.0
    ensures |d| == |g|
    ensures forall y :: 0 <= y < |g| ==> d[y] == DivRow(g[y], t)
  {
    seq(|g|, y requires 0 <= y < |g| => DivRow(g[y], t))
  }

  lemma DivideSum(a: real, b: real, t: real)
    requires t != 0.0
    ensures a / t + b / t == (a + b) / t
  {
  }

  lemma {:induction false} RowSumDivided(r: seq<real>, t: real)
    requires t != 0.0
    ensures RowSum(DivRow(r, t)) == RowSum(r) / t
  {
    var d := DivRow(r, t);
    if r != [] {
      var front := r[..|r| - 1];
      assert d[..|r| - 1] == DivRow(front, t);
      RowSumDivided(front, t);
      DivideSum(RowSum(front), r[|r| - 1], t);
    }
  }

  /** Dividing every cell by t divides the sum by t. */
  lemma {:induction false} GridSumDivided(g: seq<seq<real>>, t: real)
    requires t != 0.0
    ensures GridSum(Divided(g, t)) == GridSum(g) / t
  {
    if g != [] {
      var front := g[..|g| - 1];
      assert Divided(g, t)[..|g| - 1] == Divided(front, t);
      GridSumDivided(front, t);
      RowSumDivided(g[|g| - 1], t);
      DivideSum(GridSum(front), RowSum(g[|g| - 1]), t);
    }
  }

  lemma DividedPositive(g: seq<seq<real>>, t: real)
    requires t > 0.0 && Positive(g)
    ensures Positive(Divided(g, t))
  {
  }

  /** The kernel: every raw weight divided by the sum of all of them. */
  function Kernel(lib: MathLib, size: nat, sigma: real): (k: seq<seq<real>>)
    requires ExpPositive(lib)
    requires sigma != 0.0
    ensures IsGrid(k, size, size)
    ensures Positive(k)
  {
    var raw := RawKernel(lib, size, sigma);
    if size == 0 then [] else
      GridSumPositive(raw, size);
      DividedPositive(raw, GridSum(raw));
      Divided(raw, GridSum(raw))
  }

  /** The normalisation makes the weights of a non-empty kernel add up to 1. */
  lemma KernelSumsToOne(lib: MathLib, size: nat, sigma: real)
    requires ExpPositive(lib)
    requires sigma != 0.0 && size > 0
    ensures GridSum(Kernel(lib, size, sigma)) == 1.0
  {
    var raw := RawKernel(lib, size, sigma);
    GridSumPositive(raw, size);
    var t := GridSum(raw);
    KernelIsDivided(lib, size, sigma);
    GridSumDivided(raw, t);
    SelfQuotient(t);
  }

  lemma KernelIsDivided(lib: MathLib, size: nat, sigma: real)
    requires ExpPositive(lib)
    requires sigma != 0.0 && size > 0 && GridSum(RawKernel(lib, size, sigma)) > 0.0
    ensures Kernel(lib, size, sigma) == Divided(RawKernel(lib, size, sigma), GridSum(RawKernel(lib, size, sigma)))
  {
  }

  lemma SelfQuotient(t: real)
    requires t != 0.0
    ensures t / t == 1.0
  {
  }

  /** The inner loop of the first pass: the raw weights of row y, each added to `sum`. */
  method RawRowLoop(size: nat, sigma: real, lib: MathLib, y: int, sum0: real) returns (row: seq<real>, sum: real)
    requires sigma != 0.0
    ensures row == RawRow(lib, size, sigma, y)
    ensures sum == sum0 + RowSum(row)
  {
    ghost var raw := RawRow(lib, size, sigma, y);
    row := [];
    sum := sum0;
    var x := 0;
    while x < size
      invariant 0 <= x <= size
      invariant row == raw[..x]
      invariant sum == sum0 + RowSum(row)
    {
      var value := RawWeight(lib, size, sigma, x, y);
      RowSumSnoc(row, value);
      row := row + [value];
      sum := sum + value;
      x := x + 1;
    }
    assert row == raw;
  }

  /** The first loops of `generateGaussianKernel`: the raw weights, row by row, and their sum. */
  method RawKernelLoop(size: nat, sigma: real, lib: MathLib) returns (kernel: seq<seq<real>>, sum: real)
    requires sigma != 0.0
    ensures kernel == RawKernel(lib, size, sigma)
    ensures sum == GridSum(kernel)
  {
    ghost var raw := RawKernel(lib, size, sigma);
    kernel := [];
    sum := 0.0;
    var y := 0;
    while y < size
      invariant 0 <= y <= size
      invariant kernel == raw[..y]
      invariant sum == GridSum(kernel)
    {
      var row;
      row, sum := RawRowLoop(size, sigma, lib, y, sum);
      GridSumSnoc(kernel, row);
      PrefixSnoc(raw, y);
      kernel := kernel + [row];
      y := y + 1;
    }
    PrefixAll(raw);
  }

  /** The inner normalising loop: `kernel[y][x] /= sum` along row y, nothing else touched. */
  method DivideRowAt(kernel: seq<seq<real>>, y: nat, sum: real) returns (kernel': seq<seq<real>>)
    requires y < |kernel| && sum != 0.0
    ensures |kernel'| == |kernel|
    ensures kernel'[y] == DivRow(kernel[y], sum)
    ensures forall j :: 0 <= j < |kernel| && j != y ==> kernel'[j] == kernel[j]
  {
    kernel' := kernel;
    var x := 0;
    while x < |kernel[y]|
      invariant 0 <= x <= |kernel[y]|
      invariant |kernel'| == |kernel| && |kernel'[y]| == |kernel[y]|
      invariant forall i :: 0 <= i < |kernel[y]| ==> kernel'[y][i] == if i < x then kernel[y][i] / sum else kernel[y][i]
      invariant forall j :: 0 <= j < |kernel| && j != y ==> kernel'[j] == kernel[j]
    {
      kernel' := kernel'[y := kernel'[y][x := kernel'[y][x] / sum]];
      x := x + 1;
    }
    assert kernel'[y] == DivRow(kernel[y], sum);
  }

  /** The nested function `generateGaussianKernel(size, sigma)`. */
  method GenerateGaussianKernel(size: nat, sigma: real, lib: MathLib) returns (kernel: seq<seq<real>>)
    requires ExpPositive(lib)
    requires sigma != 0.0
    ensures kernel == Kernel(lib, size, sigma)
  {
    ghost var raw := RawKernel(lib, size, sigma);
    var sum;
    kernel, sum := RawKernelLoop(size, sigma, lib);
    if size > 0 {
      GridSumPositive(raw, size);
      ghost var normalised := Divided(raw, sum);
      var y := 0;
      while y < size
        invariant 0 <= y <= size
        invariant |kernel| == size
        invariant forall j :: 0 <= j < size ==> kernel[j] == if j < y then normalised[j] else raw[j]
      {
        kernel := DivideRowAt(kernel, y, sum);
        y := y + 1;
      }
      assert kernel == normalised;
    }
  }

  // ---------------------------------------------------------------------------
  // applyGaussianBlur

  /** A running pair of the blur loop: `r` (the weighted values) and `weightSum`. */
  datatype Acc = Acc(total: real, weight: real)

  function Plus(a: Acc, b: Acc): Acc {
    Acc(a.total + b.total, a.weight + b.weight)
  }

  /** A non-empty map with rows of equal length. */
  predicate IsMap(m: seq<seq<real>>) {
    |m| > 0 && IsRect(m)
  }

  /** A kernel of side 2h + 1, indexed by offsets in [-h, h] shifted by h. */
  predicate IsKernel(k: seq<seq<real>>, h: int) {
    h >= 0 && IsGrid(k, 2 * h + 1, 2 * h + 1)
  }

  /** What offset (kx, ky) around (x, y) adds in the loop: nothing when (x + kx, y + ky) is off the map. */
  function Contribution(m: seq<seq<real>>, k: seq<seq<real>>, h: int, x: int, y: int, ky: int, kx: int): Acc
    requires IsMap(m) && IsKernel(k, h)
    requires -h <= ky <= h && -h <= kx <= h
  {
    var nx, ny := x + kx, y + ky;
    if 0 <= nx < |m[0]| && 0 <= ny < |m| then
      var weight := k[ky + h][kx + h];
      Acc(m[ny][nx] * weight, weight)
    else
      Acc(0.0, 0.0)
  }

  /** The contributions of the first n offsets kx = -h, -h + 1, ... of row offset ky. */
  function RowAcc(m: seq<seq<real>>, k: seq<seq<real>>, h: int, x: int, y: int, ky: int, n: nat): Acc
    requires IsMap(m) && IsKernel(k, h)
    requires -h <= ky <= h && n <= 2 * h + 1
  {
    if n == 0 then Acc(0.0, 0.0)
    else Plus(RowAcc(m, k, h, x, y, ky, n - 1), Contribution(m, k, h, x, y, ky, n - 1 - h))
  }

  /** The contributions of the first n full row offsets ky = -h, -h + 1, ... */
  function BoxAcc(m: seq<seq<real>>, k: seq<seq<real>>, h: int, x: int, y: int, n: nat): Acc
    requires IsMap(m) && IsKernel(k, h)
    requires n <= 2 * h + 1
  {
    if n == 0 then Acc(0.0, 0.0)
    else Plus(BoxAcc(m, k, h, x, y, n - 1), RowAcc(m, k, h, x, y, n - 1 - h, 2 * h + 1))
  }

  lemma {:induction false} RowWeight(m: seq<seq<real>>, k: seq<seq<real>>, h: int, x: int, y: int, ky: int, n: nat)
    requires IsMap(m) && IsKernel(k, h) && Positive(k)
    requires -h <= ky <= h && n <= 2 * h + 1
    ensures RowAcc(m, k, h, x, y, ky, n).weight >= 0.0
    ensures ky == 0 && h < n && InBounds(m, x, y) ==> RowAcc(m, k, h, x, y, ky, n).weight > 0.0
  {
    if n > 0 {
      RowWeight(m, k, h, x, y, ky, n - 1);
    }
  }

  lemma {:induction false} BoxWeight(m: seq<seq<real>>, k: seq<seq<real>>, h: int, x: int, y: int, n: nat)
    requires IsMap(m) && IsKernel(k, h) && Positive(k)
    requires n <= 2 * h + 1
    ensures BoxAcc(m, k, h, x, y, n).weight >= 0.0
    ensures h < n && InBounds(m, x, y) ==> BoxAcc(m, k, h, x, y, n).weight > 0.0
  {
    if n > 0 {
      BoxWeight(m, k, h, x, y, n - 1);
      RowWeight(m, k, h, x, y, n - 1 - h, 2 * h + 1);
    }
  }

  /**
   * The blurred value of cell (x, y): `r / weightSum` once both loops over
   * the offsets are done, a weighted average, so between any bounds of the
   * cells within h of (x, y).
   */
  function BlurAt(m: seq<seq<real>>, k: seq<seq<real>>, h: int, x: int, y: int): (v: real)
    requires IsMap(m) && IsKernel(k, h) && Positive(k)
    requires InBounds(m, x, y)
    ensures forall lo, hi :: NeighbourhoodWithin(m, h, x, y, lo, hi) ==> lo <= v <= hi
  {
    BoxWeight(m, k, h, x, y, 2 * h + 1);
    BoxQuotientWithin(m, k, h, x, y);
    var a := BoxAcc(m, k, h, x, y, 2 * h + 1);
    a.total / a.weight
  }

  /** The weighted total over the whole box, divided by the weight, lies within any bounds of the box. */
  lemma BoxQuotientWithin(m: seq<seq<real>>, k: seq<seq<real>>, h: int, x: int, y: int)
    requires IsMap(m) && IsKernel(k, h) && Positive(k)
    requires InBounds(m, x, y)
    ensures BoxAcc(m, k, h, x, y, 2 * h + 1).weight > 0.0
    ensures var a := BoxAcc(m, k, h, x, y, 2 * h + 1);
      forall lo, hi :: NeighbourhoodWithin(m, h, x, y, lo, hi) ==> lo <= a.total / a.weight <= hi
  {
    BoxWeight(m, k, h, x, y, 2 * h + 1);
    var a := BoxAcc(m, k, h, x, y, 2 * h + 1);
    forall lo, hi | NeighbourhoodWithin(m, h, x, y, lo, hi)
      ensures lo <= a.total / a.weight <= hi
    {
      BoxBetween(m, k, h, x, y, 2 * h + 1, lo, hi);
      QuotientBetween(lo, a.total, hi, a.weight);
    }
  }

  /** Every cell of m within h rows and h columns of (x, y) lies in [lo, hi]. */
  predicate NeighbourhoodWithin(m: seq<seq<real>>, h: int, x: int, y: int, lo: real, hi: real) {
    forall ny, nx :: 0 <= ny < |m| && 0 <= nx < |m[ny]| && x - h <= nx <= x + h && y - h <= ny <= y + h ==>
      lo <= m[ny][nx] <= hi
  }

  /** The running pair a is an average of values in [lo, hi] scaled by its weight. */
  predicate AccWithin(a: Acc, lo: real, hi: real) {
    lo * a.weight <= a.total <= hi * a.weight
  }

  lemma PlusWithin(a: Acc, b: Acc, lo: real, hi: real)
    requires AccWithin(a, lo, hi) && AccWithin(b, lo, hi)
    ensures AccWithin(Plus(a, b), lo, hi)
  {
    assert lo * (a.weight + b.weight) == lo * a.weight + lo * b.weight;
    assert hi * (a.weight + b.weight) == hi * a.weight + hi * b.weight;
  }

  lemma ScaledBetween(lo: real, v: real, hi: real, w: real)
    requires lo <= v <= hi && w >= 0.0
    ensures AccWithin(Acc(v * w, w), lo, hi)
  {
  }

  lemma ContributionWithin(m: seq<seq<real>>, k: seq<seq<real>>, h: int, x: int, y: int, ky: int, kx: int, lo: real, hi: real)
    requires IsMap(m) && IsKernel(k, h) && Positive(k)
    requires -h <= ky <= h && -h <= kx <= h
    requires NeighbourhoodWithin(m, h, x, y, lo, hi)
    ensures AccWithin(Contribution(m, k, h, x, y, ky, kx), lo, hi)
  {
    var nx, ny := x + kx, y + ky;
    if 0 <= nx < |m[0]| && 0 <= ny < |m| {
      assert |m[ny]| == |m[0]|;
      ScaledBetween(lo, m[ny][nx], hi, k[ky + h][kx + h]);
    }
  }

  lemma {:induction false} RowBetween(m: seq<seq<real>>, k: seq<seq<real>>, h: int, x: int, y: int, ky: int, n: nat, lo: real, hi: real)
    requires IsMap(m) && IsKernel(k, h) && Positive(k)
    requires -h <= ky <= h && n <= 2 * h + 1
    requires NeighbourhoodWithin(m, h, x, y, lo, hi)
    ensures AccWithin(RowAcc(m, k, h, x, y, ky, n), lo, hi)
  {
    if n > 0 {
      RowBetween(m, k, h, x, y, ky, n - 1, lo, hi);
      ContributionWithin(m, k, h, x, y, ky, n - 1 - h, lo, hi);
      PlusWithin(RowAcc(m, k, h, x, y, ky, n - 1), Contribution(m, k, h, x, y, ky, n - 1 - h), lo, hi);
    }
  }

  lemma {:induction false} BoxBetween(m: seq<seq<real>>, k: seq<seq<real>>, h: int, x: int, y: int, n: nat, lo: real, hi: real)
    requires IsMap(m) && IsKernel(k, h) && Positive(k)
    requires n <= 2 * h + 1
    requires NeighbourhoodWithin(m, h, x, y, lo, hi)
    ensures AccWithin(BoxAcc(m, k, h, x, y, n), lo, hi)
  {
    if n > 0 {
      BoxBetween(m, k, h, x, y, n - 1, lo, hi);
      RowBetween(m, k, h, x, y, n - 1 - h, 2 * h + 1, lo, hi);
      PlusWithin(BoxAcc(m, k, h, x, y, n - 1), RowAcc(m, k, h, x, y, n - 1 - h, 2 * h + 1), lo, hi);
    }
  }

  lemma QuotientBetween(lo: real, t: real, hi: real, w: real)
    requires w > 0.0 && lo * w <= t <= hi * w
    ensures lo <= t / w <= hi
  {
    assert t / w * w == t;
  }

  /** Every cell of m lies in [lo, hi]. */
  predicate AllWithin(m: seq<seq<real>>, lo: real, hi: real) {
    forall y, x :: 0 <= y < |m| && 0 <= x < |m[y]| ==> lo <= m[y][x] <= hi
  }

  /** A 0/1 mask (or any grid of values in [0, 1]) blurs into [0, 1]. */
  lemma BlurOfMaskInUnit(m: seq<seq<real>>, k: seq<seq<real>>, h: int, x: int, y: int)
    requires IsMap(m) && IsKernel(k, h) && Positive(k)
    requires InBounds(m, x, y)
    requires AllWithin(m, 0.0, 1.0)
    ensures 0.0 <= BlurAt(m, k, h, x, y) <= 1.0
  {
    assert NeighbourhoodWithin(m, h, x, y, 0.0, 1.0);
  }

  /** A constant grid is a fixed point of the blur. */
  lemma BlurOfConstant(m: seq<seq<real>>, k: seq<seq<real>>, h: int, x: int, y: int, c: real)
    requires IsMap(m) && IsKernel(k, h) && Positive(k)
    requires InBounds(m, x, y)
    requires AllWithin(m, c, c)
    ensures BlurAt(m, k, h, x, y) == c
  {
    assert NeighbourhoodWithin(m, h, x, y, c, c);
  }

  /** `Math.round` of a value in [0, 1]: an exact half goes to 1. */
  lemma RoundOfUnit(v: real)
    requires 0.0 <= v <= 1.0
    ensures Round(v) == 0 || Round(v) == 1
    ensures Round(v) == 1 <==> v >= 0.5
  {
  }

  /** The rounding blur of NoiseGenerator.js maps a 0/1 mask to a 0/1 mask. */
  lemma RoundedBlurOfMask(m: seq<seq<real>>, k: seq<seq<real>>, h: int, x: int, y: int)
    requires IsMap(m) && IsKernel(k, h) && Positive(k)
    requires InBounds(m, x, y)
    requires AllWithin(m, 0.0, 1.0)
    ensures var v := Round(BlurAt(m, k, h, x, y)); v == 0 || v == 1
    ensures Round(BlurAt(m, k, h, x, y)) == 1 <==> BlurAt(m, k, h, x, y) >= 0.5
  {
    BlurOfMaskInUnit(m, k, h, x, y);
    RoundOfUnit(BlurAt(m, k, h, x, y));
  }

  /** A constant integer grid is a fixed point of the rounding blur. */
  lemma RoundedBlurOfConstant(m: seq<seq<real>>, k: seq<seq<real>>, h: int, x: int, y: int, c: int)
    requires IsMap(m) && IsKernel(k, h) && Positive(k)
    requires InBounds(m, x, y)
    requires AllWithin(m, c as real, c as real)
    ensures Round(BlurAt(m, k, h, x, y)) == c
  {
    BlurOfConstant(m, k, h, x, y, c as real);
  }

  /** The two nested offset loops for cell (x, y). */
  method BlurCell(m: seq<seq<real>>, kernel: seq<seq<real>>, h: int, x: int, y: int) returns (v: real)
    requires IsMap(m) && IsKernel(kernel, h) && Positive(kernel)
    requires InBounds(m, x, y)
    ensures v == BlurAt(m, kernel, h, x, y)
  {
    var r, weightSum := 0.0, 0.0;
    var ky := -h;
    while ky <= h
      invariant -h <= ky <= h + 1
      invariant Acc(r, weightSum) == BoxAcc(m, kernel, h, x, y, ky + h)
    {
      var kx := -h;
      while kx <= h
        invariant -h <= kx <= h + 1
        invariant Acc(r, weightSum) == Plus(BoxAcc(m, kernel, h, x, y, ky + h), RowAcc(m, kernel, h, x, y, ky, kx + h))
      {
        var nx, ny := x + kx, y + ky;
        if nx >= 0 && nx < |m[0]| && ny >= 0 && ny < |m| {
          var weight := kernel[ky + h][kx + h];
          weightSum := weightSum + weight;
          r := r + m[ny][nx] * weight;
        }
        kx := kx + 1;
      }
      ky := ky + 1;
    }
    BoxWeight(m, kernel, h, x, y, 2 * h + 1);
    v := r / weightSum;
  }

  /** The zero-filled `blurredMap` the blur starts from. */
  function Zeros(rows: nat, cols: nat): (z: seq<seq<real>>)
    ensures IsGrid(z, rows, cols)
    ensures AllWithin(z, 0.0, 0.0)
  {
    seq(rows, _ => seq(cols, _ => 0.0))
  }

  /**
   * `applyGaussianBlur` of NoiseGenerator.ts with the default sigma 1: every cell
   * becomes the kernel-weighted average of the in-map cells around it. The
   * source reads `map[0]`, so the map must not be empty, and it indexes the
   * kernel from 0 to 2 * floor(kernelSize / 2), so the size must be odd.
   */
  method ApplyGaussianBlur(m: seq<seq<real>>, kernelSize: nat, lib: MathLib) returns (blurred: seq<seq<real>>)
    requires ExpPositive(lib)
    requires IsMap(m)
    requires kernelSize % 2 == 1
    ensures IsGrid(blurred, |m|, |m[0]|)
    ensures forall y, x :: 0 <= y < |m| && 0 <= x < |m[0]| ==>
      blurred[y][x] == BlurAt(m, Kernel(lib, kernelSize, 1.0), kernelSize / 2, x, y)
  {
    var h := kernelSize / 2;
    var kernel := GenerateGaussianKernel(kernelSize, 1.0, lib);
    blurred := Zeros(|m|, |m[0]|);
    var y := 0;
    while y < |m|
      invariant 0 <= y <= |m|
      invariant IsGrid(blurred, |m|, |m[0]|)
      invariant forall j, i :: 0 <= j < y && 0 <= i < |m[0]| ==> blurred[j][i] == BlurAt(m, kernel, h, i, j)
    {
      var x := 0;
      while x < |m[0]|
        invariant 0 <= x <= |m[0]|
        invariant IsGrid(blurred, |m|, |m[0]|)
        invariant forall j, i :: 0 <= j < |m| && 0 <= i < |m[0]| && (j < y || (j == y && i < x)) ==>
          blurred[j][i] == BlurAt(m, kernel, h, i, j)
      {
        var v := BlurCell(m, kernel, h, x, y);
        blurred := blurred[y := blurred[y][x := v]];
        x := x + 1;
      }
      y := y + 1;
    }
  }

  /** `applyGaussianBlur` of NoiseGenerator.js: the same average, passed through `Math.round`. */
  method ApplyGaussianBlurRounded(m: seq<seq<real>>, kernelSize: nat, lib: MathLib) returns (blurred: seq<seq<real>>)
    requires ExpPositive(lib)
    requires IsMap(m)
    requires kernelSize % 2 == 1
    ensures IsGrid(blurred, |m|, |m[0]|)
    ensures forall y, x :: 0 <= y < |m| && 0 <= x < |m[0]| ==>
      blurred[y][x] == Round(BlurAt(m, Kernel(lib, kernelSize, 1.0), kernelSize / 2, x, y)) as real
  {
    var h := kernelSize / 2;
    var kernel := GenerateGaussianKernel(kernelSize, 1.0, lib);
    blurred := Zeros(|m|, |m[0]|);
    var y := 0;
    while y < |m|
      invariant 0 <= y <= |m|
      invariant IsGrid(blurred, |m|, |m[0]|)
      invariant forall j, i :: 0 <= j < y && 0 <= i < |m[0]| ==> blurred[j][i] == Round(BlurAt(m, kernel, h, i, j)) as real
    {
      var x := 0;
      while x < |m[0]|
        invariant 0 <= x <= |m[0]|
        invariant IsGrid(blurred, |m|, |m[0]|)
        invariant forall j, i :: 0 <= j < |m| && 0 <= i < |m[0]| && (j < y || (j == y && i < x)) ==>
          blurred[j][i] == Round(BlurAt(m, kernel, h, i, j)) as real
      {
        var v := BlurCell(m, kernel, h, x, y);
        blurred := blurred[y := blurred[y][x := Round(v) as real]];
        x := x + 1;
      }
      y := y + 1;
    }
  }
}
