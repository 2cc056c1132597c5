/**
 * Steps 1 to 3 of `generate`: the ocean centres and the elevation and
 * aridity fields, both drawn from the generator's one random sequence.
 *
 * MapGenerator.ts first draws how many ocean centres there are (one to three)
 * and three values per centre. Then, cell by cell in row-major order, it tests
 * the centres in turn: a centre whose radius reaches the cell draws once, and
 * the cell is in an ocean zone when that draw falls under a probability that
 * falls from 0.95 at the centre to 0.25 at the rim. An ocean-zone cell's
 * elevation is one draw scaled to [0, 0.4); any other cell's is six octaves of
 * noise. Every cell's aridity is four octaves of noise at a shifted position.
 *
 * MapGenerator.js has no ocean centres and smaller noise scales: it is this
 * model with an empty centre list and the scales of `LegacyScales`.
 */
module Terrain {
  import opened JsNumeric
  import opened Grids
  import opened SeededRandom
  import opened NoiseGenerator

  /** The `{ x, y, radius }` record of one ocean centre. */
  datatype OceanCenter = OceanCenter(x: real, y: real, radius: real)

  /** The scales of the two noise fields. */
  datatype Scales = Scales(elevation: real, aridity: real)

  /** `this.size / 8` and `this.size / 6` in MapGenerator.ts. */
  function ModernScales(size: nat): Scales {
    Scales(size as real / 8.0, size as real / 6.0)
  }

  /** `this.size / 12` and `this.size / 8` in MapGenerator.js. */
  function LegacyScales(size: nat): Scales {
    Scales(size as real / 12.0, size as real / 8.0)
  }

  predicate ScalesNonzero(sc: Scales) {
    sc.elevation != 0.0 && sc.aridity != 0.0
  }

  // ---------------------------------------------------------------------------
  // Ocean centres

  /** `Math.max(1, Math.min(3, Math.floor(next() * 3) + 1))` when the draw leaves state t. */
  function CenterCount(t: State): nat {
    Max(1, Min(3, ScaledDraw(t, 3) + 1))
  }

  /** The centre `{ x: vx * size, y: vy * size, radius: (0.3 + vr * 0.3) * size }` for three drawn values. */
  function CenterFrom(vx: real, vy: real, vr: real, size: nat): OceanCenter {
    OceanCenter(vx * size as real, vy * size as real, (0.3 + vr * 0.3) * size as real)
  }

  /** The centre built from the three draws after state s: on a map with cells, placed on it. */
  function CenterAt(s: State, size: nat): (c: OceanCenter)
    ensures size > 0 ==> Placed(c, size)
  {
    var s1 := NextState(s);
    var s2 := NextState(s1);
    var c := CenterFrom(Value(s1), Value(s2), Value(NextState(s2)), size);
    if size > 0 then CenterFromPlaced(Value(s1), Value(s2), Value(NextState(s2)), size); c else c
  }

  /**
   * The first n centres drawn from state s on: on a map with cells every
   * one lies on it, with a radius of 0.3 to 0.6 of its size.
   */
  function Centers(s: State, size: nat, n: nat): (cs: seq<OceanCenter>)
    ensures |cs| == n
    ensures size > 0 ==> forall i :: 0 <= i < n ==> Placed(cs[i], size)
  {
    if n == 0 then [] else Centers(s, size, n - 1) + [CenterAt(Advance(s, 3 * (n - 1)), size)]
  }

  /** There are one to three centres. */
  lemma CenterCountBounds(t: State)
    ensures 1 <= CenterCount(t) <= 3
    ensures CenterCount(t) == ScaledDraw(t, 3) + 1
  {
  }

  /** A centre lies in the square [0, size) x [0, size) and its radius is in [0.3 size, 0.6 size). */
  predicate Placed(c: OceanCenter, size: nat) {
    0.0 <= c.x < size as real && 0.0 <= c.y < size as real && 0.3 * size as real <= c.radius < 0.6 * size as real
  }

  /** Values in [0, 1) give a centre on the map. */
  lemma CenterFromPlaced(vx: real, vy: real, vr: real, size: nat)
    requires 0.0 <= vx < 1.0 && 0.0 <= vy < 1.0 && 0.0 <= vr < 1.0 && size > 0
    ensures Placed(CenterFrom(vx, vy, vr, size), size)
  {
    var n := size as real;
    var x, y, r := vx * n, vy * n, (0.3 + vr * 0.3) * n;
    PlacedFrom(vx, vy, vr, n);
    PlacedOf(x, y, r, size);
    assert CenterFrom(vx, vy, vr, size) == OceanCenter(x, y, r);
  }

  lemma PlacedOf(x: real, y: real, r: real, size: nat)
    requires 0.0 <= x < size as real && 0.0 <= y < size as real && 0.3 * size as real <= r < 0.6 * size as real
    ensures Placed(OceanCenter(x, y, r), size)
  {
  }

  lemma PlacedFrom(vx: real, vy: real, vr: real, n: real)
    requires 0.0 <= vx < 1.0 && 0.0 <= vy < 1.0 && 0.0 <= vr < 1.0 && n > 0.0
    ensures 0.0 <= vx * n < n && 0.0 <= vy * n < n && 0.3 * n <= (0.3 + vr * 0.3) * n < 0.6 * n
  {
    ProductBelow(vx, n);
    ProductBelow(vy, n);
    RadiusBounds(vr, n);
  }

  lemma RadiusBounds(vr: real, n: real)
    requires 0.0 <= vr < 1.0 && n > 0.0
    ensures 0.3 * n <= (0.3 + vr * 0.3) * n < 0.6 * n
  {
    var w := vr * n;
    ProductBelow(vr, n);
    assert (0.3 + vr * 0.3) * n == 0.3 * n + 0.3 * w;
  }

  lemma ProductBelow(v: real, n: real)
    requires 0.0 <= v < 1.0 && n > 0.0
    ensures 0.0 <= v * n < n
  {
  }

  /**
   * The loop that builds `oceanCenters`: the count is the first draw, then
   * each centre takes three draws.
   */
  method CreateOceanCenters(rng: Rng, size: nat) returns (centers: seq<OceanCenter>)
    modifies rng
    ensures 1 <= |centers| <= 3
    ensures centers == Centers(NextState(old(rng.seed)), size, CenterCount(NextState(old(rng.seed))))
    ensures rng.seed == Advance(old(rng.seed), 1 + 3 * |centers|)
  {
    ghost var s0 := rng.seed;
    var v := rng.Next();
    ghost var s1 := rng.seed;
    ScaledDrawIsFloor(s1, 3);
    var numOceanCenters := Max(1, Min(3, (v * 3.0).Floor + 1));
    assert numOceanCenters == CenterCount(s1);
    centers := [];
    var i := 0;
    while i < numOceanCenters
      invariant 0 <= i <= numOceanCenters
      invariant centers == Centers(s1, size, i)
      invariant rng.seed == Advance(s1, 3 * i)
    {
      var center := DrawCenter(rng, size);
      AdvanceAddTo(s1, 3 * i, 3, 3 * (i + 1));
      centers := centers + [center];
      i := i + 1;
    }
    AdvanceAddTo(s0, 1, 3 * i, 1 + 3 * |centers|);
  }

  /** `oceanCenters.push({ x: next() * size, y: next() * size, radius: (0.3 + next() * 0.3) * size })`. */
  method DrawCenter(rng: Rng, size: nat) returns (center: OceanCenter)
    modifies rng
    ensures center == CenterAt(old(rng.seed), size)
    ensures rng.seed == Advance(old(rng.seed), 3)
  {
    ghost var s0 := rng.seed;
    var cx := rng.Next();
    var cy := rng.Next();
    var cr := rng.Next();
    assert Advance(s0, 1) == NextState(s0);
    assert Advance(s0, 2) == NextState(Advance(s0, 1));
    assert Advance(s0, 3) == NextState(Advance(s0, 2));
    center := CenterFrom(cx, cy, cr, size);
  }

  // ---------------------------------------------------------------------------
  // The ocean-zone test

  function Square(v: real): real {
    v * v
  }

  /** `Math.sqrt(Math.pow(x - center.x, 2) + Math.pow(y - center.y, 2))`. */
  function Distance(lib: MathLib, c: OceanCenter, x: real, y: real): real {
    lib.sqrt(Square(x - c.x) + Square(y - c.y))
  }

  /** The centre's radius reaches the cell, so the test draws for it. */
  predicate Reaches(lib: MathLib, c: OceanCenter, x: real, y: real) {
    Distance(lib, c, x, y) < c.radius
  }

  /** The number of centres whose radius reaches the cell. */
  function Reaching(lib: MathLib, cs: seq<OceanCenter>, x: real, y: real): (n: nat)
    ensures n <= |cs|
  {
    if cs == [] then 0 else (if Reaches(lib, cs[0], x, y) then 1 else 0) + Reaching(lib, cs[1..], x, y)
  }

  predicate PositiveRadii(cs: seq<OceanCenter>) {
    forall i :: 0 <= i < |cs| ==> cs[i].radius > 0.0
  }

  /** The outcome of the test of one cell and how many values it drew. */
  datatype Zone = Zone(inZone: bool, draws: nat)

  /** `0.95 - (distToCenter / center.radius) * 0.7`. */
  function OceanProbability(dist: real, radius: real): real
    requires radius > 0.0
  {
    0.95 - dist / radius * 0.7
  }

  /**
   * The `for (const center of oceanCenters)` loop from state s: every centre
   * that reaches the cell draws once, and the first draw under its
   * probability puts the cell in the zone and stops the loop.
   */
  function ZoneTest(lib: MathLib, cs: seq<OceanCenter>, x: real, y: real, s: State): (z: Zone)
    requires PositiveRadii(cs)
    ensures z.draws <= Reaching(lib, cs, x, y)
    ensures !z.inZone ==> z.draws == Reaching(lib, cs, x, y)
    ensures z.inZone ==> z.draws >= 1
  {
    if cs == [] then Zone(false, 0)
    else
      var c := cs[0];
      var dist := Distance(lib, c, x, y);
      if dist < c.radius then
        var t := NextState(s);
        if Value(t) < OceanProbability(dist, c.radius) then Zone(true, 1)
        else var z := ZoneTest(lib, cs[1..], x, y, t); Zone(z.inZone, z.draws + 1)
      else ZoneTest(lib, cs[1..], x, y, s)
  }

  /** A cell outside every radius is never in a zone and costs no draw: all of MapGenerator.js. */
  lemma OutsideAllZones(lib: MathLib, cs: seq<OceanCenter>, x: real, y: real, s: State)
    requires PositiveRadii(cs) && Reaching(lib, cs, x, y) == 0
    ensures ZoneTest(lib, cs, x, y, s) == Zone(false, 0)
  {
  }

  /** A centre the cell sits on draws under 0.95, so the draw that puts a cell in its zone is below 0.95. */
  lemma ProbabilityRange(dist: real, radius: real)
    requires radius > 0.0 && 0.0 <= dist < radius
    ensures 0.25 < OceanProbability(dist, radius) <= 0.95
  {
    var q := dist / radius;
    assert q * radius == dist;
    assert (1.0 - q) * radius == radius - dist;
    FactorSign(1.0 - q, radius);
    FactorSign(q, radius);
  }

  /** The test resumed after i centres: what remains of the test of the whole list. */
  function Resume(z: Zone, d: nat): Zone {
    Zone(z.inZone, z.draws + d)
  }

  /** The test of the centres from i on, one centre unrolled. */
  lemma ZoneStep(lib: MathLib, cs: seq<OceanCenter>, i: nat, x: real, y: real, s: State)
    requires PositiveRadii(cs) && i < |cs|
    ensures PositiveRadii(cs[i + 1..])
    ensures var c, t := cs[i], NextState(s);
      var dist := Distance(lib, c, x, y);
      ZoneTest(lib, cs[i..], x, y, s)
        == if dist < c.radius then
             if Value(t) < OceanProbability(dist, c.radius) then Zone(true, 1)
             else Resume(ZoneTest(lib, cs[i + 1..], x, y, t), 1)
           else ZoneTest(lib, cs[i + 1..], x, y, s)
  {
    assert cs[i..][0] == cs[i] && cs[i..][1..] == cs[i + 1..];
  }

  /**
   * The zone loop's invariant after i centres: the state s is the start state
   * s0 after d draws, and the test from there on finishes the test of the whole list.
   */
  ghost predicate ZoneLoop(lib: MathLib, cs: seq<OceanCenter>, x: real, y: real, s0: State,
                           i: nat, s: State, d: nat)
    requires PositiveRadii(cs) && i <= |cs|
  {
    PositiveRadii(cs[i..]) && s == Advance(s0, d)
    && ZoneTest(lib, cs, x, y, s0) == Resume(ZoneTest(lib, cs[i..], x, y, s), d)
  }

  /** Before the first centre the loop invariant holds with no draws. */
  lemma ZoneStart(lib: MathLib, cs: seq<OceanCenter>, x: real, y: real, s0: State)
    requires PositiveRadii(cs)
    ensures ZoneLoop(lib, cs, x, y, s0, 0, s0, 0)
  {
    assert cs[0..] == cs;
  }

  /**
   * The zone loop's invariant carried over centre i, from state s after d
   * draws to state t after e draws, given what the test of that centre did.
   */
  lemma ZoneAdvance(lib: MathLib, cs: seq<OceanCenter>, i: nat, x: real, y: real, s0: State,
                    s: State, d: nat, t: State, e: nat, drew: bool, hit: bool)
    requires PositiveRadii(cs) && i < |cs| && ZoneLoop(lib, cs, x, y, s0, i, s, d)
    requires drew == (Distance(lib, cs[i], x, y) < cs[i].radius)
    requires hit == (drew && Value(NextState(s)) < OceanProbability(Distance(lib, cs[i], x, y), cs[i].radius))
    requires t == (if drew then NextState(s) else s) && e == (if drew then d + 1 else d)
    ensures hit ==> t == Advance(s0, e) && ZoneTest(lib, cs, x, y, s0) == Zone(true, e)
    ensures !hit ==> ZoneLoop(lib, cs, x, y, s0, i + 1, t, e)
  {
    ZoneStep(lib, cs, i, x, y, s);
  }

  /** The zone loop run to the end of the list without a success. */
  lemma ZoneExhausted(lib: MathLib, cs: seq<OceanCenter>, x: real, y: real, s0: State, s: State, d: nat)
    requires PositiveRadii(cs) && ZoneLoop(lib, cs, x, y, s0, |cs|, s, d)
    ensures ZoneTest(lib, cs, x, y, s0) == Zone(false, d) && s == Advance(s0, d)
  {
    assert cs[|cs|..] == [];
  }

  /** The body of the zone loop for one centre: whether it drew, and whether the draw put the cell in the zone. */
  method TestCenter(lib: MathLib, center: OceanCenter, x: real, y: real, rng: Rng) returns (drew: bool, hit: bool)
    requires center.radius > 0.0
    modifies rng
    ensures drew == (Distance(lib, center, x, y) < center.radius)
    ensures hit == (drew && Value(rng.seed) < OceanProbability(Distance(lib, center, x, y), center.radius))
    ensures rng.seed == if drew then NextState(old(rng.seed)) else old(rng.seed)
  {
    var distToCenter := lib.sqrt(Square(x - center.x) + Square(y - center.y));
    drew, hit := false, false;
    if distToCenter < center.radius {
      var oceanProbability := 0.95 - distToCenter / center.radius * 0.7;
      var v := rng.Next();
      drew := true;
      hit := v < oceanProbability;
    }
  }

  /** The zone loop of one cell, stopping at the first success as the source's `break` does. */
  method InOceanZone(lib: MathLib, oceanCenters: seq<OceanCenter>, x: real, y: real, rng: Rng)
    returns (isInOceanZone: bool)
    requires PositiveRadii(oceanCenters)
    modifies rng
    ensures isInOceanZone == ZoneTest(lib, oceanCenters, x, y, old(rng.seed)).inZone
    ensures rng.seed == Advance(old(rng.seed), ZoneTest(lib, oceanCenters, x, y, old(rng.seed)).draws)
  {
    ghost var s0 := rng.seed;
    ghost var d: nat := 0;
    ZoneStart(lib, oceanCenters, x, y, s0);
    isInOceanZone := false;
    var i := 0;
    while i < |oceanCenters|
      invariant 0 <= i <= |oceanCenters|
      invariant ZoneLoop(lib, oceanCenters, x, y, s0, i, rng.seed, d)
      invariant !isInOceanZone
    {
      var center := oceanCenters[i];
      ghost var s, d0 := rng.seed, d;
      var drew, hit := TestCenter(lib, center, x, y, rng);
      if drew {
        d := d + 1;
      }
      ZoneAdvance(lib, oceanCenters, i, x, y, s0, s, d0, rng.seed, d, drew, hit);
      if hit {
        isInOceanZone := true;
        break;
      }
      i := i + 1;
    }
    if !isInOceanZone {
      ZoneExhausted(lib, oceanCenters, x, y, s0, rng.seed, d);
    }
  }

  // ---------------------------------------------------------------------------
  // The noise fields

  /** The elevation and aridity of one cell and how many values their computation drew. */
  datatype CellNoise = CellNoise(elevation: real, aridity: real, draws: nat)

  /**
   * Cell (x, y) from state s: the zone test, then the elevation (one draw in a
   * zone, six octaves otherwise), then the aridity (four octaves).
   */
  function NoiseAt(lib: MathLib, cs: seq<OceanCenter>, sc: Scales, x: nat, y: nat, s: State): (c: CellNoise)
    requires PositiveRadii(cs) && ScalesNonzero(sc)
    ensures var z := ZoneTest(lib, cs, x as real, y as real, s);
      && 0.0 <= c.elevation < 1.0 && 0.0 <= c.aridity < 1.0
      && (z.inZone ==> c.elevation < 0.4)
      && c.draws == z.draws + ElevationDraws(z.inZone) + 16
  {
    var z := ZoneTest(lib, cs, x as real, y as real, s);
    var s1 := Advance(s, z.draws);
    var e := ElevationDraws(z.inZone);
    var aridity := OctaveValue(lib, x as real + 1000.0, y as real + 1000.0, 4, 0.6, sc.aridity, Advance(s1, e));
    CellNoise(ElevationAt(lib, z.inZone, sc, x, y, s1), aridity, z.draws + e + 16)
  }

  /** `elevationNoise[y][x]` from state s: `next() * 0.4` in an ocean zone, six octaves of noise elsewhere. */
  function ElevationAt(lib: MathLib, inZone: bool, sc: Scales, x: nat, y: nat, s: State): real
    requires ScalesNonzero(sc)
  {
    if inZone then Value(NextState(s)) * 0.4 else OctaveValue(lib, x as real, y as real, 6, 0.5, sc.elevation, s)
  }

  /** The draws of the elevation: one in a zone, four for each of six octaves elsewhere. */
  function ElevationDraws(inZone: bool): nat {
    if inZone then 1 else 24
  }

  /** The conditional expression that assigns `elevationNoise[y][x]`. */
  method CellElevation(lib: MathLib, isInOceanZone: bool, sc: Scales, x: nat, y: nat, rng: Rng) returns (elevation: real)
    requires ScalesNonzero(sc)
    modifies rng
    ensures elevation == ElevationAt(lib, isInOceanZone, sc, x, y, old(rng.seed))
    ensures rng.seed == Advance(old(rng.seed), ElevationDraws(isInOceanZone))
  {
    if isInOceanZone {
      var v := rng.Next();
      elevation := v * 0.4;
    } else {
      elevation := GenerateOctaveNoise(x as real, y as real, rng, 6, 0.5, sc.elevation, lib);
    }
  }

  /** The fields' rows and the generator state after them. */
  datatype Noise = Noise(elevation: seq<seq<real>>, aridity: seq<seq<real>>, state: State)

  /** The first n cells of row y of both fields, from state s, and the state after them. */
  datatype RowNoise = RowNoise(elevation: seq<real>, aridity: seq<real>, state: State)

  function NoiseRow(lib: MathLib, cs: seq<OceanCenter>, sc: Scales, y: nat, n: nat, s: State): (r: RowNoise)
    requires PositiveRadii(cs) && ScalesNonzero(sc)
    ensures |r.elevation| == |r.aridity| == n
  {
    if n == 0 then RowNoise([], [], s)
    else
      var front := NoiseRow(lib, cs, sc, y, n - 1, s);
      var c := NoiseAt(lib, cs, sc, n - 1, y, front.state);
      RowNoise(front.elevation + [c.elevation], front.aridity + [c.aridity], Advance(front.state, c.draws))
  }

  /** The first k rows of size cells of both fields, from state s, row by row. */
  function NoiseRows(lib: MathLib, cs: seq<OceanCenter>, sc: Scales, size: nat, k: nat, s: State): (r: Noise)
    requires PositiveRadii(cs) && ScalesNonzero(sc)
    ensures |r.elevation| == |r.aridity| == k
    ensures forall j :: 0 <= j < k ==> |r.elevation[j]| == |r.aridity[j]| == size
  {
    if k == 0 then Noise([], [], s)
    else
      var front := NoiseRows(lib, cs, sc, size, k - 1, s);
      var row := NoiseRow(lib, cs, sc, k - 1, size, front.state);
      Noise(front.elevation + [row.elevation], front.aridity + [row.aridity], row.state)
  }

  /** The row loop over x for one y. */
  method FillNoiseRow(lib: MathLib, oceanCenters: seq<OceanCenter>, sc: Scales, size: nat, y: nat, rng: Rng)
    returns (elevationRow: seq<real>, aridityRow: seq<real>)
    requires PositiveRadii(oceanCenters) && ScalesNonzero(sc)
    modifies rng
    ensures NoiseRow(lib, oceanCenters, sc, y, size, old(rng.seed)) == RowNoise(elevationRow, aridityRow, rng.seed)
  {
    ghost var s0 := rng.seed;
    elevationRow, aridityRow := [], [];
    var x := 0;
    while x < size
      invariant 0 <= x <= size
      invariant NoiseRow(lib, oceanCenters, sc, y, x, s0) == RowNoise(elevationRow, aridityRow, rng.seed)
    {
      var e, a := FillCell(lib, oceanCenters, sc, x, y, rng);
      elevationRow, aridityRow := elevationRow + [e], aridityRow + [a];
      x := x + 1;
    }
  }

  /** The body of the cell loop: the zone test, then `elevationNoise[y][x]`, then `aridityNoise[y][x]`. */
  method FillCell(lib: MathLib, oceanCenters: seq<OceanCenter>, sc: Scales, x: nat, y: nat, rng: Rng)
    returns (elevation: real, aridity: real)
    requires PositiveRadii(oceanCenters) && ScalesNonzero(sc)
    modifies rng
    ensures var c := NoiseAt(lib, oceanCenters, sc, x, y, old(rng.seed));
      elevation == c.elevation && aridity == c.aridity && rng.seed == Advance(old(rng.seed), c.draws)
  {
    ghost var s0 := rng.seed;
    ghost var z := ZoneTest(lib, oceanCenters, x as real, y as real, s0);
    var isInOceanZone := InOceanZone(lib, oceanCenters, x as real, y as real, rng);
    ghost var s1 := rng.seed;
    ghost var e := ElevationDraws(isInOceanZone);
    elevation := CellElevation(lib, isInOceanZone, sc, x, y, rng);
    ghost var s2 := rng.seed;
    aridity := GenerateOctaveNoise(x as real + 1000.0, y as real + 1000.0, rng, 4, 0.6, sc.aridity, lib);
    CellSeed(lib, oceanCenters, sc, x, y, s0, s1, s2, rng.seed);
    NoiseAtParts(lib, oceanCenters, sc, x, y, s0, z);
  }

  /** The zone test's a draws, the elevation's e and the aridity's 16 add up. */
  lemma CellDrawsAdd(s0: State, a: nat, e: nat, s1: State, s2: State, s3: State)
    requires s1 == Advance(s0, a) && s2 == Advance(s1, e) && s3 == Advance(s2, 16)
    ensures s3 == Advance(s0, a + e + 16)
  {
    AdvanceAddTo(s1, e, 16, e + 16);
    AdvanceAddTo(s0, a, e + 16, a + e + 16);
  }

  /** The generator state after the three parts of a cell is the one NoiseAt counts. */
  lemma CellSeed(lib: MathLib, cs: seq<OceanCenter>, sc: Scales, x: nat, y: nat, s0: State, s1: State, s2: State, s3: State)
    requires PositiveRadii(cs) && ScalesNonzero(sc)
    requires s1 == Advance(s0, ZoneTest(lib, cs, x as real, y as real, s0).draws)
    requires s2 == Advance(s1, ElevationDraws(ZoneTest(lib, cs, x as real, y as real, s0).inZone))
    requires s3 == Advance(s2, 4 * 4)
    ensures s3 == Advance(s0, NoiseAt(lib, cs, sc, x, y, s0).draws)
  {
    var z := ZoneTest(lib, cs, x as real, y as real, s0);
    CellDrawsAdd(s0, z.draws, ElevationDraws(z.inZone), s1, s2, s3);
  }

  /** NoiseAt in terms of the outcome z of the zone test. */
  lemma NoiseAtParts(lib: MathLib, cs: seq<OceanCenter>, sc: Scales, x: nat, y: nat, s: State, z: Zone)
    requires PositiveRadii(cs) && ScalesNonzero(sc)
    requires z == ZoneTest(lib, cs, x as real, y as real, s)
    ensures var s1, e := Advance(s, z.draws), ElevationDraws(z.inZone);
      NoiseAt(lib, cs, sc, x, y, s) == CellNoise(ElevationAt(lib, z.inZone, sc, x, y, s1),
        OctaveValue(lib, x as real + 1000.0, y as real + 1000.0, 4, 0.6, sc.aridity, Advance(s1, e)), z.draws + e + 16)
  {
  }

  /**
   * The nested loops of step 3 that fill `elevationNoise` and `aridityNoise`,
   * row by row, each cell from where the previous one left the generator.
   */
  method FillNoise(lib: MathLib, oceanCenters: seq<OceanCenter>, sc: Scales, size: nat, rng: Rng)
    returns (elevationNoise: seq<seq<real>>, aridityNoise: seq<seq<real>>)
    requires PositiveRadii(oceanCenters) && ScalesNonzero(sc)
    modifies rng
    ensures NoiseRows(lib, oceanCenters, sc, size, size, old(rng.seed)) == Noise(elevationNoise, aridityNoise, rng.seed)
    ensures IsGrid(elevationNoise, size, size) && IsGrid(aridityNoise, size, size)
  {
    ghost var s0 := rng.seed;
    elevationNoise, aridityNoise := [], [];
    var y := 0;
    while y < size
      invariant 0 <= y <= size
      invariant NoiseRows(lib, oceanCenters, sc, size, y, s0) == Noise(elevationNoise, aridityNoise, rng.seed)
    {
      var e, a := FillNoiseRow(lib, oceanCenters, sc, size, y, rng);
      elevationNoise, aridityNoise := elevationNoise + [e], aridityNoise + [a];
      y := y + 1;
    }
  }

  // ---------------------------------------------------------------------------
  // What the fields promise

  /** Without ocean centres, as in MapGenerator.js, every cell draws exactly 24 + 16 values. */
  lemma LegacyCellDraws(lib: MathLib, sc: Scales, x: nat, y: nat, s: State)
    requires ScalesNonzero(sc)
    ensures NoiseAt(lib, [], sc, x, y, s).draws == 40
  {
  }

  /** Without ocean centres a row of n cells draws 40 n values. */
  lemma {:induction false} LegacyRowDraws(lib: MathLib, sc: Scales, y: nat, n: nat, s: State)
    requires ScalesNonzero(sc)
    ensures NoiseRow(lib, [], sc, y, n, s).state == Advance(s, 40 * n)
  {
    if n > 0 {
      LegacyRowDraws(lib, sc, y, n - 1, s);
      NoiseRowState(lib, [], sc, y, n, s);
      LegacyCellDraws(lib, sc, n - 1, y, NoiseRow(lib, [], sc, y, n - 1, s).state);
      AdvanceAddTo(s, 40 * (n - 1), 40, 40 * n);
    }
  }

  /** The state after n cells of a row: the state after n - 1 cells advanced by the draws of cell n - 1. */
  lemma NoiseRowState(lib: MathLib, cs: seq<OceanCenter>, sc: Scales, y: nat, n: nat, s: State)
    requires PositiveRadii(cs) && ScalesNonzero(sc) && n > 0
    ensures var front := NoiseRow(lib, cs, sc, y, n - 1, s).state;
      NoiseRow(lib, cs, sc, y, n, s).state == Advance(front, NoiseAt(lib, cs, sc, n - 1, y, front).draws)
  {
  }

  lemma {:induction false} LegacyRowsDraws(lib: MathLib, sc: Scales, size: nat, k: nat, s: State)
    requires ScalesNonzero(sc)
    ensures NoiseRows(lib, [], sc, size, k, s).state == AdvanceRuns(s, 40 * size, k)
  {
    if k > 0 {
      var front := NoiseRows(lib, [], sc, size, k - 1, s);
      LegacyRowsDraws(lib, sc, size, k - 1, s);
      LegacyRowDraws(lib, sc, k - 1, size, front.state);
    }
  }

  /** Without ocean centres, as in MapGenerator.js, the fields of a size x size map draw 40 size^2 values. */
  lemma LegacyFieldDraws(lib: MathLib, sc: Scales, size: nat, s: State)
    requires ScalesNonzero(sc)
    ensures NoiseRows(lib, [], sc, size, size, s).state == Advance(s, 40 * size * size)
  {
    LegacyRowsDraws(lib, sc, size, size, s);
    AdvanceRunsIsAdvance(s, 40 * size, size);
  }
}
