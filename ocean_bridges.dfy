/**
 * Step 11 of `generate` in MapGenerator.ts, `_connectOceanAreas`: ocean
 * cells are joined by widened lines of new ocean.
 *
 * The pass lists the ocean cells row by row. With fewer than five it returns
 * the map unchanged. Otherwise it draws min(count, 10) distinct connect
 * points from that list and walks the straight line between each point and
 * the next in max(|dx|, |dy|) + 1 rounded steps. At every line point on the
 * map it draws a spread radius of 1 or 2 and then, for every cell of the
 * square of that radius around the point that lies on the map, one value:
 * below 0.8 the cell becomes ocean unless it is a village.
 *
 * The model computes the same map and the same generator state as
 * `Connected`, and proves that the pass only turns desert and plains into
 * ocean.
 */
module OceanBridges {
  import opened JsNumeric
  import opened Grids
  import opened Biomes
  import opened Sorting
  import opened SeededRandom

  // ---------------------------------------------------------------------------
  // The ocean cells

  /** The ocean cells among the first n cells of row y, left to right. */
  function OceanRow(g: BiomeMap, y: nat, n: nat): (ps: seq<Pos>)
    requires y < |g| && n <= |g[y]|
    ensures |ps| <= n
  {
    if n == 0 then [] else OceanRow(g, y, n - 1) + (if g[y][n - 1] == Ocean then [Pos(n - 1, y)] else [])
  }

  /** The ocean cells of the first k rows, row by row: the order the source pushes them in. */
  function OceanCellsUpTo(g: BiomeMap, k: nat): seq<Pos>
    requires IsBiomeMap(g) && k <= |g|
  {
    if k == 0 then [] else OceanCellsUpTo(g, k - 1) + OceanRow(g, k - 1, |g[0]|)
  }

  /** `oceanCells` as the nested loops build it. */
  function OceanCells(g: BiomeMap): seq<Pos>
    requires IsBiomeMap(g)
  {
    OceanCellsUpTo(g, |g|)
  }

  /** The record of an ocean cell of g in the first n columns of row y. */
  predicate OceanIn(g: BiomeMap, p: Pos, rows: nat, cols: nat) {
    0 <= p.y < rows && 0 <= p.x < cols && p.y < |g| && p.x < |g[p.y]| && g[p.y][p.x] == Ocean
  }

  lemma {:induction false} OceanRowSound(g: BiomeMap, y: nat, n: nat)
    requires y < |g| && n <= |g[y]|
    ensures forall i :: 0 <= i < |OceanRow(g, y, n)| ==>
      OceanIn(g, OceanRow(g, y, n)[i], y + 1, n) && OceanRow(g, y, n)[i].y == y
    ensures NoDup(OceanRow(g, y, n))
    ensures |OceanRow(g, y, n)| == CountRow(g[y][..n], Ocean)
  {
    if n > 0 {
      OceanRowSound(g, y, n - 1);
      var front := OceanRow(g, y, n - 1);
      var last: seq<Pos> := if g[y][n - 1] == Ocean then [Pos(n - 1, y)] else [];
      assert OceanRow(g, y, n) == front + last;
      NoDupConcat(front, last);
      CountRowPrefixStep(g[y], n - 1, Ocean);
    }
  }

  /** Every listed cell is an ocean cell, none is listed twice, and there are as many as the map has. */
  lemma {:induction false} OceanCellsSound(g: BiomeMap, k: nat)
    requires IsBiomeMap(g) && k <= |g|
    ensures forall i :: 0 <= i < |OceanCellsUpTo(g, k)| ==> OceanIn(g, OceanCellsUpTo(g, k)[i], k, |g[0]|)
    ensures NoDup(OceanCellsUpTo(g, k))
    ensures |OceanCellsUpTo(g, k)| == Count(g[..k], Ocean)
  {
    if k > 0 {
      OceanCellsSound(g, k - 1);
      OceanRowSound(g, k - 1, |g[0]|);
      var front, row := OceanCellsUpTo(g, k - 1), OceanRow(g, k - 1, |g[0]|);
      forall i, j | 0 <= i < |front| && 0 <= j < |row| ensures front[i] != row[j] {
        assert front[i].y < k - 1 && row[j].y == k - 1;
      }
      NoDupConcat(front, row);
      CountPrefixStep(g, k - 1, Ocean);
      assert g[k - 1][..|g[0]|] == g[k - 1];
    }
  }

  /** An ocean cell of the first n columns of row y has a place in the row's list. */
  lemma {:induction false} OceanRowComplete(g: BiomeMap, y: nat, n: nat, x: nat) returns (i: nat)
    requires y < |g| && n <= |g[y]| && x < n && g[y][x] == Ocean
    ensures i < |OceanRow(g, y, n)| && OceanRow(g, y, n)[i] == Pos(x, y)
  {
    var front := OceanRow(g, y, n - 1);
    var last: seq<Pos> := if g[y][n - 1] == Ocean then [Pos(n - 1, y)] else [];
    assert OceanRow(g, y, n) == front + last;
    if x == n - 1 {
      i := |front|;
    } else {
      i := OceanRowComplete(g, y, n - 1, x);
    }
  }

  /** Every ocean cell of the first k rows has a place in the list. */
  lemma {:induction false} OceanCellsComplete(g: BiomeMap, k: nat, x: nat, y: nat) returns (i: nat)
    requires IsBiomeMap(g) && k <= |g| && y < k && x < |g[0]| && g[y][x] == Ocean
    ensures i < |OceanCellsUpTo(g, k)| && OceanCellsUpTo(g, k)[i] == Pos(x, y)
  {
    var front, row := OceanCellsUpTo(g, k - 1), OceanRow(g, k - 1, |g[0]|);
    assert OceanCellsUpTo(g, k) == front + row;
    if y == k - 1 {
      var j := OceanRowComplete(g, y, |g[0]|, x);
      i := |front| + j;
    } else {
      i := OceanCellsComplete(g, k - 1, x, y);
    }
  }

  /** `oceanCells` lists each ocean cell of the map once, and nothing else. */
  lemma OceanCellsExact(g: BiomeMap)
    requires IsBiomeMap(g)
    ensures forall p :: p in OceanCells(g) <==> OceanIn(g, p, |g|, |g[0]|)
    ensures NoDup(OceanCells(g))
    ensures |OceanCells(g)| == Count(g, Ocean)
  {
    OceanCellsSound(g, |g|);
    assert g[..|g|] == g;
    forall p | OceanIn(g, p, |g|, |g[0]|) ensures p in OceanCells(g) {
      var i := OceanCellsComplete(g, |g|, p.x, p.y);
      assert OceanCells(g)[i] == p;
    }
  }

  /** The row loop over x that pushes the ocean cells of row y. */
  method CollectOceanRow(mapCopy: BiomeMap, y: nat, width: nat, oceanCells: seq<Pos>) returns (cells: seq<Pos>)
    requires y < |mapCopy| && width <= |mapCopy[y]|
    ensures cells == oceanCells + OceanRow(mapCopy, y, width)
  {
    cells := oceanCells;
    var x := 0;
    while x < width
      invariant 0 <= x <= width
      invariant cells == oceanCells + OceanRow(mapCopy, y, x)
    {
      if mapCopy[y][x] == Ocean {
        cells := cells + [Pos(x, y)];
      }
      x := x + 1;
    }
  }

  /** The nested loops that collect `oceanCells`. */
  method CollectOceanCells(mapCopy: BiomeMap) returns (oceanCells: seq<Pos>)
    requires IsBiomeMap(mapCopy)
    ensures oceanCells == OceanCells(mapCopy)
  {
    var width, height := |mapCopy[0]|, |mapCopy|;
    oceanCells := [];
    var y := 0;
    while y < height
      invariant 0 <= y <= height
      invariant oceanCells == OceanCellsUpTo(mapCopy, y)
    {
      oceanCells := CollectOceanRow(mapCopy, y, width, oceanCells);
      y := y + 1;
    }
  }

  // ---------------------------------------------------------------------------
  // The connect points

  /** `s.splice(i, 1)`: s without its element i. */
  function Splice<T>(s: seq<T>, i: nat): (r: seq<T>)
    requires i < |s|
    ensures |r| == |s| - 1
    ensures multiset(r) == multiset(s) - multiset{s[i]}
  {
    MultisetRemove(s, i);
    s[..i] + s[i + 1..]
  }

  /**
   * n points drawn from `cells` from state s on: each draw picks index
   * floor(next() * length) of what is left, and that entry is spliced out.
   */
  function Picks(cells: seq<Pos>, s: State, n: nat): (ps: seq<Pos>)
    requires n <= |cells|
    ensures |ps| == n
    ensures multiset(ps) <= multiset(cells)
    decreases n
  {
    if n == 0 then []
    else
      var t := NextState(s);
      var i := ScaledDraw(t, |cells|);
      var rest := Picks(Splice(cells, i), t, n - 1);
      assert multiset([cells[i]] + rest) == multiset{cells[i]} + multiset(rest);
      [cells[i]] + rest
  }

  /** The connect points are distinct ocean cells of the map. */
  lemma ConnectPointsAreOcean(g: BiomeMap, s: State, n: nat)
    requires IsBiomeMap(g) && n <= |OceanCells(g)|
    ensures NoDup(Picks(OceanCells(g), s, n))
    ensures forall i :: 0 <= i < n ==> OceanIn(g, Picks(OceanCells(g), s, n)[i], |g|, |g[0]|)
  {
    var cells, ps := OceanCells(g), Picks(OceanCells(g), s, n);
    OceanCellsExact(g);
    NoDupMultiplicity(cells);
    NoDupMultiplicity(ps);
    forall i | 0 <= i < n ensures OceanIn(g, ps[i], |g|, |g[0]|) {
      assert ps[i] in multiset(ps);
    }
  }

  lemma PicksStep(cells: seq<Pos>, s: State, n: nat)
    requires 0 < n <= |cells|
    ensures var t := NextState(s); var i := ScaledDraw(t, |cells|);
      Picks(cells, s, n) == [cells[i]] + Picks(Splice(cells, i), t, n - 1)
  {
  }

  /**
   * The pick loop's invariant after i of n picks: `done` holds them, `cells`
   * what is left, and the picks from state s on finish the whole draw.
   */
  ghost predicate Picking(oceanCells: seq<Pos>, s0: State, n: nat, done: seq<Pos>, cells: seq<Pos>, i: nat, s: State)
    requires n <= |oceanCells|
  {
    i <= n && |cells| == |oceanCells| - i && s == Advance(s0, i)
    && Picks(oceanCells, s0, n) == done + Picks(cells, s, n - i)
  }

  /** One pick keeps the loop's invariant. */
  lemma PickingStep(oceanCells: seq<Pos>, s0: State, n: nat, done: seq<Pos>, cells: seq<Pos>, i: nat, s: State, r: int)
    requires n <= |oceanCells| && Picking(oceanCells, s0, n, done, cells, i, s) && i < n
    requires r == ScaledDraw(NextState(s), |cells|)
    ensures 0 <= r < |cells|
    ensures Picking(oceanCells, s0, n, done + [cells[r]], Splice(cells, r), i + 1, NextState(s))
  {
    PicksStep(cells, s, n - i);
    AppendAssoc(done, [cells[r]], Picks(Splice(cells, r), NextState(s), n - i - 1));
  }

  /** After the last pick `done` is the whole draw. */
  lemma PickingDone(oceanCells: seq<Pos>, s0: State, n: nat, done: seq<Pos>, cells: seq<Pos>, s: State)
    requires n <= |oceanCells| && Picking(oceanCells, s0, n, done, cells, n, s)
    ensures done == Picks(oceanCells, s0, n) && s == Advance(s0, n)
  {
  }

  /** The loop that fills `connectPoints`, splicing each pick out of `oceanCells`. */
  method PickConnectPoints(oceanCells: seq<Pos>, numConnectPoints: nat, rng: Rng) returns (connectPoints: seq<Pos>)
    requires numConnectPoints <= |oceanCells|
    modifies rng
    ensures connectPoints == Picks(oceanCells, old(rng.seed), numConnectPoints)
    ensures rng.seed == Advance(old(rng.seed), numConnectPoints)
  {
    ghost var s0 := rng.seed;
    var cells := oceanCells;
    connectPoints := [];
    var i := 0;
    while i < numConnectPoints
      invariant Picking(oceanCells, s0, numConnectPoints, connectPoints, cells, i, rng.seed)
    {
      ghost var si := rng.seed;
      var randomIndex := rng.NextScaled(|cells|);
      PickingStep(oceanCells, s0, numConnectPoints, connectPoints, cells, i, si, randomIndex);
      connectPoints := connectPoints + [cells[randomIndex]];
      cells := Splice(cells, randomIndex);
      i := i + 1;
    }
    PickingDone(oceanCells, s0, numConnectPoints, connectPoints, cells, rng.seed);
  }

  // ---------------------------------------------------------------------------
  // The lines

  /** `Math.max(Math.abs(dx), Math.abs(dy))`: the Chebyshev distance between the ends. */
  function Steps(start: Pos, end: Pos): (n: nat)
    ensures Abs(end.x - start.x) <= n && Abs(end.y - start.y) <= n
    ensures n == Abs(end.x - start.x) || n == Abs(end.y - start.y)
    ensures n == 0 <==> start == end
  {
    Max(Abs(end.x - start.x), Abs(end.y - start.y))
  }

  /** `t = steps === 0 ? 0 : step / steps`. */
  function Fraction(step: nat, steps: nat): real {
    if steps == 0 then 0.0 else step as real / steps as real
  }

  /**
   * `Math.round(a + (b - a) * t)`: one coordinate of a line point, a at
   * t = 0, b at t = 1 and between the two in between.
   */
  function Lerp(a: int, b: int, t: real): (r: int)
    ensures t == 0.0 ==> r == a
    ensures t == 1.0 ==> r == b
    ensures 0.0 <= t <= 1.0 ==> Min(a, b) <= r <= Max(a, b)
  {
    RoundInt(a);
    RoundInt(b);
    assert t == 1.0 ==> a as real + (b - a) as real * t == b as real;
    var r := Round(a as real + (b - a) as real * t);
    if 0.0 <= t <= 1.0 then RoundOffset(a, b - a, t); r else r
  }

  /**
   * The point of step `step`, both coordinates interpolated by the same
   * fraction: the start at step 0, the end at the last step, and in the box
   * the two ends span at every step of the line.
   */
  function LinePoint(start: Pos, end: Pos, step: nat): (p: Pos)
    ensures step == 0 ==> p == start
    ensures step == Steps(start, end) ==> p == end
    ensures step <= Steps(start, end) ==>
      Min(start.x, end.x) <= p.x <= Max(start.x, end.x) && Min(start.y, end.y) <= p.y <= Max(start.y, end.y)
  {
    var steps := Steps(start, end);
    var t := Fraction(step, steps);
    var p := Pos(Lerp(start.x, end.x, t), Lerp(start.y, end.y, t));
    if steps == 0 then p
    else
      DivSelf(steps as real);
      if step <= steps then FractionInUnit(step, steps); p else p
  }

  lemma RoundInt(a: int)
    ensures Round(a as real) == a
  {
  }

  lemma DivSelf(a: real)
    requires a > 0.0
    ensures a / a == 1.0
  {
  }

  lemma FractionInUnit(step: nat, steps: nat)
    requires step <= steps
    ensures 0.0 <= Fraction(step, steps) <= 1.0
  {
    if steps > 0 {
      DivBelow(step as real, steps as real);
    }
  }

  lemma DivBelow(a: real, b: real)
    requires 0.0 <= a <= b && b > 0.0
    ensures 0.0 <= a / b <= 1.0
  {
    var t := a / b;
    assert t * b == a;
    assert (1.0 - t) * b == b - a;
    FactorSign(t, b);
    FactorSign(1.0 - t, b);
  }

  /** e lies between 0 and d. */
  ghost predicate OffsetWithin(d: int, e: real) {
    (d >= 0 ==> 0.0 <= e <= d as real) && (d < 0 ==> d as real <= e <= 0.0)
  }

  lemma MulUnit(d: int, t: real)
    requires 0.0 <= t <= 1.0
    ensures OffsetWithin(d, d as real * t)
  {
    var c := d as real;
    assert d >= 0 ==> c >= 0.0;
    assert d < 0 ==> c < 0.0;
  }

  /** Moving from a by the fraction t of d ends between a and a + d. */
  lemma RoundOffset(a: int, d: int, t: real)
    requires 0.0 <= t <= 1.0
    ensures d >= 0 ==> a <= Round(a as real + d as real * t) <= a + d
    ensures d < 0 ==> a + d <= Round(a as real + d as real * t) <= a
  {
    MulUnit(d, t);
    RoundOffsetBy(a, d, d as real * t);
  }

  /** Moving from a by an offset e between 0 and d ends between a and a + d. */
  lemma RoundOffsetBy(a: int, d: int, e: real)
    requires OffsetWithin(d, e)
    ensures d >= 0 ==> a <= Round(a as real + e) <= a + d
    ensures d < 0 ==> a + d <= Round(a as real + e) <= a
  {
    assert (a + d) as real == a as real + d as real;
    if d >= 0 {
      RoundBetween(a as real + e, a, a + d);
    } else {
      RoundBetween(a as real + e, a + d, a);
    }
  }

  lemma RoundBetween(v: real, lo: int, hi: int)
    requires lo as real <= v <= hi as real
    ensures lo <= Round(v) <= hi
  {
  }

  /** Between two cells of the map every line point is a cell of the map, so the bounds test always passes. */
  lemma LineOnMap(g: BiomeMap, start: Pos, end: Pos, step: nat)
    requires IsBiomeMap(g) && InBounds(g, start.x, start.y) && InBounds(g, end.x, end.y)
    requires step <= Steps(start, end)
    ensures InBounds(g, LinePoint(start, end, step).x, LinePoint(start, end, step).y)
  {
  }

  // ---------------------------------------------------------------------------
  // The spread around one line point

  /** `1 + Math.floor(next() * 2)` when the draw leaves state t. */
  function SpreadRadius(t: State): (r: int)
    ensures 1 <= r <= 2
  {
    1 + ScaledDraw(t, 2)
  }

  /** How many v with lo <= v < hi lie in [0, n). */
  function InRange(lo: int, hi: int, n: int): nat {
    var c := Min(hi, n) - Max(lo, 0);
    if c < 0 then 0 else c
  }

  lemma InRangeStep(lo: int, hi: int, n: int)
    requires lo <= hi
    ensures InRange(lo, hi + 1, n) == InRange(lo, hi, n) + (if 0 <= hi < n then 1 else 0)
  {
  }

  /** How many of c - r .. c + r lie in [0, n): the cells of one side of the square on the map. */
  function Span(c: int, r: int, n: int): nat {
    InRange(c - r, c + r + 1, n)
  }

  /**
   * Cell i of a row of the square around column x, when the row's draws
   * start at state t: the draw for i comes after those of the cells of the
   * square left of it.
   */
  function SpreadCell(row: seq<Biome>, x: int, r: int, t: State, i: nat): Biome
    requires i < |row|
  {
    if Abs(i - x) <= r && row[i] != Village && Value(Advance(t, InRange(x - r, i, |row|) + 1)) < 0.8 then Ocean
    else row[i]
  }

  /** A row of the square, its first draw after state t. */
  function SpreadRow(row: seq<Biome>, x: int, r: int, t: State): (nr: seq<Biome>)
    ensures |nr| == |row|
    ensures forall i :: 0 <= i < |row| ==> nr[i] == SpreadCell(row, x, r, t, i)
  {
    seq(|row|, i requires 0 <= i < |row| => SpreadCell(row, x, r, t, i))
  }

  /** The state at which the draws of row j of the square start, the first at state t. */
  function RowStart(g: BiomeMap, x: int, y: int, r: int, t: State, j: int): State
    requires IsBiomeMap(g)
  {
    AdvanceRuns(t, Span(x, r, |g[0]|), InRange(y - r, j, |g|))
  }

  /** The square of radius r around (x, y) spread with draws from state t on. */
  function Spread(g: BiomeMap, x: int, y: int, r: int, t: State): (m: BiomeMap)
    requires IsBiomeMap(g)
    ensures |m| == |g|
    ensures forall j :: 0 <= j < |g| ==> m[j] == if Abs(j - y) <= r then SpreadRow(g[j], x, r, RowStart(g, x, y, r, t, j)) else g[j]
  {
    seq(|g|, j requires 0 <= j < |g| => if Abs(j - y) <= r then SpreadRow(g[j], x, r, RowStart(g, x, y, r, t, j)) else g[j])
  }

  /** The spread only turns desert and plains into ocean. */
  lemma SpreadChangesOnly(g: BiomeMap, x: int, y: int, r: int, t: State)
    requires IsBiomeMap(g)
    ensures ChangesOnly(g, Spread(g, x, y, r, t), {Desert, Plains}, Ocean)
    ensures IsBiomeMap(Spread(g, x, y, r, t)) && |Spread(g, x, y, r, t)[0]| == |g[0]|
  {
    var m := Spread(g, x, y, r, t);
    forall j | 0 <= j < |g| ensures |m[j]| == |g[j]| {
    }
  }

  /** The spread changes no cell outside the square of radius r around (x, y). */
  lemma SpreadLocal(g: BiomeMap, x: int, y: int, r: int, t: State, i: nat, j: nat)
    requires IsBiomeMap(g) && j < |g| && i < |g[j]|
    requires Abs(i - x) > r || Abs(j - y) > r
    ensures Spread(g, x, y, r, t)[j][i] == g[j][i]
  {
  }

  /** The inner loop over sx for row ny, a row of the map. */
  method SpreadAlongRow(row: seq<Biome>, x: int, r: int, rng: Rng) returns (newRow: seq<Biome>)
    requires r >= 0
    modifies rng
    ensures newRow == SpreadRow(row, x, r, old(rng.seed))
    ensures rng.seed == Advance(old(rng.seed), Span(x, r, |row|))
  {
    ghost var s0 := rng.seed;
    newRow := row;
    var sx := -r;
    while sx <= r
      invariant -r <= sx <= r + 1
      invariant |newRow| == |row|
      invariant rng.seed == Advance(s0, InRange(x - r, x + sx, |row|))
      invariant forall i :: 0 <= i < |row| ==> newRow[i] == if i < x + sx then SpreadCell(row, x, r, s0, i) else row[i]
    {
      var nx := x + sx;
      InRangeStep(x - r, nx, |row|);
      if 0 <= nx < |row| {
        var v := rng.Next();
        if v < 0.8 && newRow[nx] != Village {
          newRow := newRow[nx := Ocean];
        }
      }
      sx := sx + 1;
    }
  }

  /** The two loops over sy and sx around (x, y), the radius already drawn. */
  method SpreadAround(mapCopy: BiomeMap, x: int, y: int, spreadRadius: int, rng: Rng) returns (m: BiomeMap)
    requires IsBiomeMap(mapCopy) && spreadRadius >= 0
    modifies rng
    ensures m == Spread(mapCopy, x, y, spreadRadius, old(rng.seed))
    ensures rng.seed == AdvanceRuns(old(rng.seed), Span(x, spreadRadius, |mapCopy[0]|), Span(y, spreadRadius, |mapCopy|))
  {
    ghost var s0 := rng.seed;
    var r := spreadRadius;
    m := mapCopy;
    var sy := -r;
    while sy <= r
      invariant -r <= sy <= r + 1
      invariant |m| == |mapCopy|
      invariant rng.seed == RowStart(mapCopy, x, y, r, s0, y + sy)
      invariant forall j :: 0 <= j < |m| ==>
        m[j] == if y - r <= j < y + sy then SpreadRow(mapCopy[j], x, r, RowStart(mapCopy, x, y, r, s0, j)) else mapCopy[j]
    {
      var ny := y + sy;
      InRangeStep(y - r, ny, |mapCopy|);
      if 0 <= ny < |m| {
        var row := SpreadAlongRow(m[ny], x, r, rng);
        m := m[ny := row];
      }
      sy := sy + 1;
    }
  }

  // ---------------------------------------------------------------------------
  // One line, all lines, the whole pass

  /**
   * One step of a line at point p, carried from c: when p is a cell of the
   * map, a radius draw and the spread around p; otherwise nothing.
   */
  function SpreadAt(c: Carried<BiomeMap>, p: Pos): (d: Carried<BiomeMap>)
    requires IsBiomeMap(c.value)
    ensures IsBiomeMap(d.value) && |d.value| == |c.value| && |d.value[0]| == |c.value[0]|
    ensures ChangesOnly(c.value, d.value, {Desert, Plains}, Ocean)
  {
    if 0 <= p.x < |c.value[0]| && 0 <= p.y < |c.value| then
      var t := NextState(c.state);
      var r := SpreadRadius(t);
      SpreadChangesOnly(c.value, p.x, p.y, r, t);
      Carried(Spread(c.value, p.x, p.y, r, t), AdvanceRuns(t, Span(p.x, r, |c.value[0]|), Span(p.y, r, |c.value|)))
    else c
  }

  /** The first k steps of the line from start to end, on map g from state s. */
  function LineSpread(g: BiomeMap, start: Pos, end: Pos, k: nat, s: State): (c: Carried<BiomeMap>)
    requires IsBiomeMap(g)
    ensures IsBiomeMap(c.value) && |c.value| == |g| && |c.value[0]| == |g[0]|
  {
    if k == 0 then Carried(g, s)
    else SpreadAt(LineSpread(g, start, end, k - 1, s), LinePoint(start, end, k - 1))
  }

  /** The first k lines between consecutive connect points. */
  function ConnectAll(g: BiomeMap, points: seq<Pos>, k: nat, s: State): (c: Carried<BiomeMap>)
    requires IsBiomeMap(g) && k < |points|
    ensures IsBiomeMap(c.value) && |c.value| == |g| && |c.value[0]| == |g[0]|
  {
    if k == 0 then Carried(g, s)
    else
      var c := ConnectAll(g, points, k - 1, s);
      LineSpread(c.value, points[k - 1], points[k], Steps(points[k - 1], points[k]) + 1, c.state)
  }

  /** What `_connectOceanAreas` returns for map g from state s, and the state it leaves. */
  function Connected(g: BiomeMap, s: State): (c: Carried<BiomeMap>)
    requires IsBiomeMap(g)
    ensures IsBiomeMap(c.value) && |c.value| == |g| && |c.value[0]| == |g[0]|
  {
    var cells := OceanCells(g);
    if |cells| < 5 then Carried(g, s)
    else
      var n := Min(|cells|, 10);
      ConnectAll(g, Picks(cells, s, n), n - 1, Advance(s, n))
  }

  /** The loop over the steps of one line. */
  method ConnectPair(mapCopy: BiomeMap, start: Pos, end: Pos, rng: Rng) returns (m: BiomeMap)
    requires IsBiomeMap(mapCopy)
    modifies rng
    ensures LineSpread(mapCopy, start, end, Steps(start, end) + 1, old(rng.seed)) == Carried(m, rng.seed)
  {
    ghost var s0 := rng.seed;
    var dx := end.x - start.x;
    var dy := end.y - start.y;
    var steps := Max(Abs(dx), Abs(dy));
    m := mapCopy;
    var step := 0;
    while step <= steps
      invariant 0 <= step <= steps + 1
      invariant LineSpread(mapCopy, start, end, step, s0) == Carried(m, rng.seed)
    {
      m := LineStep(m, start, end, step, rng);
      LineSpreadNext(mapCopy, start, end, step, s0);
      step := step + 1;
    }
    assert steps == Steps(start, end);
  }

  /** One more step of the line spreads around its next point. */
  lemma LineSpreadNext(g: BiomeMap, start: Pos, end: Pos, k: nat, s: State)
    requires IsBiomeMap(g)
    ensures LineSpread(g, start, end, k + 1, s) == SpreadAt(LineSpread(g, start, end, k, s), LinePoint(start, end, k))
  {
  }

  /** One step of the line: the point, and the spread around it when it lies on the map. */
  method LineStep(mapCopy: BiomeMap, start: Pos, end: Pos, step: nat, rng: Rng) returns (m: BiomeMap)
    requires IsBiomeMap(mapCopy)
    modifies rng
    ensures Carried(m, rng.seed) == SpreadAt(Carried(mapCopy, old(rng.seed)), LinePoint(start, end, step))
  {
    var width, height := |mapCopy[0]|, |mapCopy|;
    var dx := end.x - start.x;
    var dy := end.y - start.y;
    var steps := Max(Abs(dx), Abs(dy));
    var t := if steps == 0 then 0.0 else step as real / steps as real;
    var x := Lerp(start.x, end.x, t);
    var y := Lerp(start.y, end.y, t);
    assert Pos(x, y) == LinePoint(start, end, step);
    m := mapCopy;
    if x >= 0 && x < width && y >= 0 && y < height {
      ghost var s := rng.seed;
      var r := rng.NextScaled(2);
      var spreadRadius := 1 + r;
      assert spreadRadius == SpreadRadius(rng.seed);
      m := SpreadAround(m, x, y, spreadRadius, rng);
      assert SpreadAt(Carried(mapCopy, s), Pos(x, y)) == Carried(m, rng.seed);
    }
  }

  /** `_connectOceanAreas(map)`; the source reads `map[0]`, so the map has a row. */
  method ConnectOceanAreas(g: BiomeMap, rng: Rng) returns (mapCopy: BiomeMap)
    requires IsBiomeMap(g)
    modifies rng
    ensures Connected(g, old(rng.seed)) == Carried(mapCopy, rng.seed)
  {
    ghost var s0 := rng.seed;
    mapCopy := g;
    var oceanCells := CollectOceanCells(mapCopy);
    if |oceanCells| < 5 {
      return;
    }
    var numConnectPoints := Min(|oceanCells|, 10);
    var connectPoints := PickConnectPoints(oceanCells, numConnectPoints, rng);
    ghost var s1 := rng.seed;
    ConnectedUnfold(g, s0, connectPoints, s1);
    mapCopy := ConnectPoints(g, connectPoints, rng);
  }

  lemma ConnectedUnfold(g: BiomeMap, s: State, points: seq<Pos>, t: State)
    requires IsBiomeMap(g) && |OceanCells(g)| >= 5
    requires points == Picks(OceanCells(g), s, Min(|OceanCells(g)|, 10))
    requires t == Advance(s, Min(|OceanCells(g)|, 10))
    ensures |points| > 0
    ensures Connected(g, s) == ConnectAll(g, points, |points| - 1, t)
  {
  }

  /** The loop over consecutive pairs of connect points. */
  method ConnectPoints(g: BiomeMap, connectPoints: seq<Pos>, rng: Rng) returns (mapCopy: BiomeMap)
    requires IsBiomeMap(g) && |connectPoints| > 0
    modifies rng
    ensures ConnectAll(g, connectPoints, |connectPoints| - 1, old(rng.seed)) == Carried(mapCopy, rng.seed)
  {
    ghost var s1 := rng.seed;
    mapCopy := g;
    var i := 0;
    while i < |connectPoints| - 1
      invariant 0 <= i <= |connectPoints| - 1
      invariant ConnectAll(g, connectPoints, i, s1) == Carried(mapCopy, rng.seed)
    {
      mapCopy := ConnectPair(mapCopy, connectPoints[i], connectPoints[i + 1], rng);
      i := i + 1;
    }
  }

  // ---------------------------------------------------------------------------
  // What the pass promises

  lemma {:induction false} LineSpreadChangesOnly(g: BiomeMap, start: Pos, end: Pos, k: nat, s: State)
    requires IsBiomeMap(g)
    ensures ChangesOnly(g, LineSpread(g, start, end, k, s).value, {Desert, Plains}, Ocean)
  {
    if k == 0 {
      ChangesOnlyRefl(g, {Desert, Plains}, Ocean);
    } else {
      LineSpreadChangesOnly(g, start, end, k - 1, s);
      LineSpreadGrow(g, start, end, k, s);
    }
  }

  /** Step k of the line extends what the first k - 1 steps changed, in the same way. */
  lemma LineSpreadGrow(g: BiomeMap, start: Pos, end: Pos, k: nat, s: State)
    requires IsBiomeMap(g) && k > 0
    requires ChangesOnly(g, LineSpread(g, start, end, k - 1, s).value, {Desert, Plains}, Ocean)
    ensures ChangesOnly(g, LineSpread(g, start, end, k, s).value, {Desert, Plains}, Ocean)
  {
    LineSpreadStep(g, start, end, k, s);
    ChangesOnlyTrans(g, LineSpread(g, start, end, k - 1, s).value, LineSpread(g, start, end, k, s).value,
                     {Desert, Plains}, Ocean);
  }

  /** Step k of the line changes only desert and plains cells, into ocean. */
  lemma LineSpreadStep(g: BiomeMap, start: Pos, end: Pos, k: nat, s: State)
    requires IsBiomeMap(g) && k > 0
    ensures ChangesOnly(LineSpread(g, start, end, k - 1, s).value, LineSpread(g, start, end, k, s).value, {Desert, Plains}, Ocean)
  {
    var c := LineSpread(g, start, end, k - 1, s);
    assert LineSpread(g, start, end, k, s) == SpreadAt(c, LinePoint(start, end, k - 1));
  }

  lemma {:induction false} ConnectAllChangesOnly(g: BiomeMap, points: seq<Pos>, k: nat, s: State)
    requires IsBiomeMap(g) && k < |points|
    ensures ChangesOnly(g, ConnectAll(g, points, k, s).value, {Desert, Plains}, Ocean)
  {
    if k == 0 {
      ChangesOnlyRefl(g, {Desert, Plains}, Ocean);
    } else {
      ConnectAllChangesOnly(g, points, k - 1, s);
      ConnectAllGrow(g, points, k, s);
    }
  }

  /** Line k extends what the first k - 1 lines changed, in the same way. */
  lemma ConnectAllGrow(g: BiomeMap, points: seq<Pos>, k: nat, s: State)
    requires IsBiomeMap(g) && 0 < k < |points|
    requires ChangesOnly(g, ConnectAll(g, points, k - 1, s).value, {Desert, Plains}, Ocean)
    ensures ChangesOnly(g, ConnectAll(g, points, k, s).value, {Desert, Plains}, Ocean)
  {
    var c := ConnectAll(g, points, k - 1, s);
    LineSpreadChangesOnly(c.value, points[k - 1], points[k], Steps(points[k - 1], points[k]) + 1, c.state);
    ChangesOnlyTrans(g, c.value, ConnectAll(g, points, k, s).value, {Desert, Plains}, Ocean);
  }

  /**
   * The pass only turns desert and plains cells into ocean: villages keep
   * their cells, and the ocean count never falls.
   */
  lemma ConnectedChangesOnly(g: BiomeMap, s: State)
    requires IsBiomeMap(g)
    ensures ChangesOnly(g, Connected(g, s).value, {Desert, Plains}, Ocean)
    ensures Count(Connected(g, s).value, Village) == Count(g, Village)
    ensures Count(Connected(g, s).value, Ocean) >= Count(g, Ocean)
  {
    var cells := OceanCells(g);
    if |cells| < 5 {
      ChangesOnlyRefl(g, {Desert, Plains}, Ocean);
    } else {
      var n := Min(|cells|, 10);
      ConnectAllChangesOnly(g, Picks(cells, s, n), n - 1, Advance(s, n));
    }
    ChangesOnlyKeepsOther(g, Connected(g, s).value, {Desert, Plains}, Ocean, Village);
    ChangesOnlyKeepsTarget(g, Connected(g, s).value, {Desert, Plains}, Ocean);
  }

  /** With fewer than five ocean cells the map comes back as it was and nothing is drawn. */
  lemma FewOceanCellsUnchanged(g: BiomeMap, s: State)
    requires IsBiomeMap(g) && Count(g, Ocean) < 5
    ensures Connected(g, s) == Carried(g, s)
  {
    OceanCellsExact(g);
  }
}
