/**
 * Step 12 of `generate` in MapGenerator.ts, `_ensureOceanPercentage`: when
 * the map has less ocean than the target percentage, land is flooded until
 * the target is met or no land is left.
 *
 * The pass reads the ocean share the way `calculateBiomePercentage` prints
 * it (one decimal) and stops when that share already reaches the target.
 * Otherwise it computes how many cells to convert, splits the non-village
 * land into continent-edge cells (an ocean cell among the eight neighbours)
 * and inland cells, floods edge cells first in an order chosen by a sort with
 * a random comparator, and then, if that was not enough, floods inland cells
 * nearest to the ocean first: each inland cell gets the Manhattan distance
 * to the nearest ocean of the map as it stands after the edge cells were
 * flooded, and a stable sort by that distance fixes the order.
 *
 * The model computes the same map and generator state as `TopUp`, and
 * proves that the pass turns only desert and plains into ocean, converts
 * exactly min(quota, land cells) of them, floods every edge cell before any
 * inland cell, and floods inland cells in order of distance.
 *
 * Read rounded to one decimal, the share can stand above the true share, so
 * that the pass returns early or counts an ocean cell that is not there and
 * stops short of the target with land left (`RoundedShareFallsShort`).
 * `EnsureOceanPercentageExact` reads the share unrounded and always reaches
 * the target or floods all the land (`ExactTopUpReachesTarget`).
 */
module OceanTopUp {
  import opened JsNumeric
  import opened Grids
  import opened Biomes
  import opened Sorting
  import opened SeededRandom
  import opened Statistics

  /**
   * The `{ x, y, dist? }` records the pass keeps in `edgeCells` and
   * `inlandCells`. A record with no distance yet has dist 0, which is what
   * the comparator's `(a.dist || 0)` reads for it.
   */
  datatype Cell = Cell(x: int, y: int, dist: int)

  /** The neighbour offsets `isContinentEdge` tries, in its order. */
  const NEIGHBOURS: seq<Pos> := [Pos(-1, 0), Pos(1, 0), Pos(0, -1), Pos(0, 1), Pos(-1, -1), Pos(-1, 1), Pos(1, -1), Pos(1, 1)]

  /** (x, y) is a cell of the map and holds ocean. */
  predicate OceanAt(g: BiomeMap, x: int, y: int) {
    InBounds(g, x, y) && g[y][x] == Ocean
  }

  // ---------------------------------------------------------------------------
  // Edge and inland cells

  /** `isContinentEdge`: not ocean, and one of the eight neighbours on the map is ocean. */
  predicate ContinentEdge(g: BiomeMap, x: int, y: int)
    requires InBounds(g, x, y)
  {
    g[y][x] != Ocean && exists i :: 0 <= i < |NEIGHBOURS| && OceanAt(g, x + NEIGHBOURS[i].x, y + NEIGHBOURS[i].y)
  }

  method IsContinentEdge(m: BiomeMap, x: int, y: int) returns (edge: bool)
    requires IsBiomeMap(m) && InBounds(m, x, y)
    ensures edge == ContinentEdge(m, x, y)
  {
    if m[y][x] == Ocean {
      return false;
    }
    var i := 0;
    while i < |NEIGHBOURS|
      invariant 0 <= i <= |NEIGHBOURS|
      invariant forall j :: 0 <= j < i ==> !OceanAt(m, x + NEIGHBOURS[j].x, y + NEIGHBOURS[j].y)
    {
      var nx := x + NEIGHBOURS[i].x;
      var ny := y + NEIGHBOURS[i].y;
      if nx >= 0 && nx < |m[0]| && ny >= 0 && ny < |m| {
        if m[ny][nx] == Ocean {
          return true;
        }
      }
      i := i + 1;
    }
    return false;
  }

  /** The list the classifying loop pushes a cell onto. */
  datatype Kind = Edge | Inland

  /** Cell (x, y) is land that is not a village, and an edge cell exactly when k is Edge. */
  predicate OfKind(g: BiomeMap, x: int, y: int, k: Kind)
    requires InBounds(g, x, y)
  {
    g[y][x] != Ocean && g[y][x] != Village && (ContinentEdge(g, x, y) <==> k == Edge)
  }

  /** The cells of kind k among the first n cells of row y, left to right. */
  function KindRow(g: BiomeMap, y: nat, n: nat, k: Kind): (cs: seq<Cell>)
    requires y < |g| && n <= |g[y]|
    ensures |cs| <= n
  {
    if n == 0 then []
    else KindRow(g, y, n - 1, k) + (if OfKind(g, n - 1, y, k) then [Cell(n - 1, y, 0)] else [])
  }

  /** The cells of kind k of the first j rows, in the order the loops push them. */
  function KindCellsUpTo(g: BiomeMap, j: nat, k: Kind): seq<Cell>
    requires IsBiomeMap(g) && j <= |g|
  {
    if j == 0 then [] else KindCellsUpTo(g, j - 1, k) + KindRow(g, j - 1, |g[0]|, k)
  }

  /**
   * `edgeCells` (k = Edge) or `inlandCells` (k = Inland) after the classifying
   * loops: cells of that kind, each once, with no distance yet.
   */
  function KindCells(g: BiomeMap, k: Kind): (cs: seq<Cell>)
    requires IsBiomeMap(g)
    ensures Listed(g, cs, k) && DistinctPositions(cs)
  {
    KindCellsSound(g, |g|, k);
    KindCellsUpTo(g, |g|, k)
  }

  /** Each listed cell is a cell of the map of the listed kind, with no distance yet. */
  predicate Listed(g: BiomeMap, cs: seq<Cell>, k: Kind) {
    forall i :: 0 <= i < |cs| ==> InBounds(g, cs[i].x, cs[i].y) && OfKind(g, cs[i].x, cs[i].y, k) && cs[i].dist == 0
  }

  /** No two listed cells share a position. */
  predicate DistinctPositions(cs: seq<Cell>) {
    forall i, j :: 0 <= i < j < |cs| ==> cs[i].x != cs[j].x || cs[i].y != cs[j].y
  }

  lemma {:induction false} KindRowSound(g: BiomeMap, y: nat, n: nat, k: Kind)
    requires y < |g| && n <= |g[y]|
    ensures Listed(g, KindRow(g, y, n, k), k)
    ensures forall i :: 0 <= i < |KindRow(g, y, n, k)| ==> KindRow(g, y, n, k)[i].y == y && KindRow(g, y, n, k)[i].x < n
    ensures DistinctPositions(KindRow(g, y, n, k))
  {
    if n > 0 {
      KindRowSound(g, y, n - 1, k);
    }
  }

  /** The edge and inland cells of a row prefix are as many as its desert and plains cells. */
  lemma {:induction false} KindRowCount(g: BiomeMap, y: nat, n: nat)
    requires y < |g| && n <= |g[y]|
    ensures |KindRow(g, y, n, Edge)| + |KindRow(g, y, n, Inland)| == CountRow(g[y][..n], Desert) + CountRow(g[y][..n], Plains)
  {
    if n > 0 {
      KindRowCount(g, y, n - 1);
      CountRowPrefixStep(g[y], n - 1, Desert);
      CountRowPrefixStep(g[y], n - 1, Plains);
      KindStep(g, y, n - 1);
    }
  }

  /** Cell x of row y is listed as edge or as inland exactly when it holds desert or plains. */
  lemma KindStep(g: BiomeMap, y: nat, x: nat)
    requires y < |g| && x < |g[y]|
    ensures |KindRow(g, y, x + 1, Edge)| + |KindRow(g, y, x + 1, Inland)|
         == |KindRow(g, y, x, Edge)| + |KindRow(g, y, x, Inland)| + (if g[y][x] == Desert then 1 else 0) + (if g[y][x] == Plains then 1 else 0)
  {
  }

  lemma {:induction false} KindCellsSound(g: BiomeMap, j: nat, k: Kind)
    requires IsBiomeMap(g) && j <= |g|
    ensures Listed(g, KindCellsUpTo(g, j, k), k)
    ensures forall i :: 0 <= i < |KindCellsUpTo(g, j, k)| ==> KindCellsUpTo(g, j, k)[i].y < j
    ensures DistinctPositions(KindCellsUpTo(g, j, k))
  {
    if j > 0 {
      KindCellsSound(g, j - 1, k);
      KindRowSound(g, j - 1, |g[0]|, k);
      var front: seq<Cell>, row: seq<Cell> := KindCellsUpTo(g, j - 1, k), KindRow(g, j - 1, |g[0]|, k);
      var all: seq<Cell> := front + row;
      assert KindCellsUpTo(g, j, k) == all;
      forall a, b | 0 <= a < b < |all|
        ensures all[a].x != all[b].x || all[a].y != all[b].y
      {
        if b < |front| {
          assert all[a] == front[a] && all[b] == front[b];
        } else if a >= |front| {
          assert all[a] == row[a - |front|] && all[b] == row[b - |front|];
        } else {
          assert all[a].y < j - 1 && all[b].y == j - 1;
        }
      }
    }
  }

  /** Edge and inland cells together are as many as the desert and plains cells. */
  lemma {:induction false} KindCellsCount(g: BiomeMap, j: nat)
    requires IsBiomeMap(g) && j <= |g|
    ensures |KindCellsUpTo(g, j, Edge)| + |KindCellsUpTo(g, j, Inland)| == Count(g[..j], Desert) + Count(g[..j], Plains)
  {
    if j > 0 {
      KindCellsCount(g, j - 1);
      KindRowFull(g, j - 1);
      CountPrefixLast(g, j, Desert);
      CountPrefixLast(g, j, Plains);
    }
  }

  /** A whole row lists one cell of either kind per desert or plains cell. */
  lemma KindRowFull(g: BiomeMap, y: nat)
    requires IsBiomeMap(g) && y < |g|
    ensures |KindRow(g, y, |g[0]|, Edge)| + |KindRow(g, y, |g[0]|, Inland)| == CountRow(g[y], Desert) + CountRow(g[y], Plains)
  {
    KindRowCount(g, y, |g[0]|);
    assert g[y][..|g[0]|] == g[y];
  }

  lemma {:induction false} KindRowComplete(g: BiomeMap, y: nat, n: nat, x: nat, k: Kind) returns (i: nat)
    requires y < |g| && n <= |g[y]| && x < n && OfKind(g, x, y, k)
    ensures i < |KindRow(g, y, n, k)| && KindRow(g, y, n, k)[i] == Cell(x, y, 0)
  {
    var front := KindRow(g, y, n - 1, k);
    var last: seq<Cell> := if OfKind(g, n - 1, y, k) then [Cell(n - 1, y, 0)] else [];
    assert KindRow(g, y, n, k) == front + last;
    if x == n - 1 {
      i := |front|;
    } else {
      i := KindRowComplete(g, y, n - 1, x, k);
    }
  }

  /** Every cell of kind k of the first j rows has a place in the list. */
  lemma {:induction false} KindCellsComplete(g: BiomeMap, j: nat, x: nat, y: nat, k: Kind) returns (i: nat)
    requires IsBiomeMap(g) && j <= |g| && y < j && x < |g[0]| && OfKind(g, x, y, k)
    ensures i < |KindCellsUpTo(g, j, k)| && KindCellsUpTo(g, j, k)[i] == Cell(x, y, 0)
  {
    var front, row := KindCellsUpTo(g, j - 1, k), KindRow(g, j - 1, |g[0]|, k);
    assert KindCellsUpTo(g, j, k) == front + row;
    if y == j - 1 {
      var r := KindRowComplete(g, y, |g[0]|, x, k);
      i := |front| + r;
      assert (front + row)[i] == row[r];
    } else {
      i := KindCellsComplete(g, j - 1, x, y, k);
      assert (front + row)[i] == front[i];
    }
  }

  /** The x loop of the classifying loops, over row y. */
  method ClassifyRow(mapCopy: BiomeMap, y: nat, edge0: seq<Cell>, inland0: seq<Cell>)
    returns (edgeCells: seq<Cell>, inlandCells: seq<Cell>)
    requires IsBiomeMap(mapCopy) && y < |mapCopy|
    ensures edgeCells == edge0 + KindRow(mapCopy, y, |mapCopy[0]|, Edge)
    ensures inlandCells == inland0 + KindRow(mapCopy, y, |mapCopy[0]|, Inland)
  {
    edgeCells, inlandCells := edge0, inland0;
    var x := 0;
    while x < |mapCopy[0]|
      invariant 0 <= x <= |mapCopy[0]|
      invariant edgeCells == edge0 + KindRow(mapCopy, y, x, Edge)
      invariant inlandCells == inland0 + KindRow(mapCopy, y, x, Inland)
    {
      if mapCopy[y][x] != Ocean && mapCopy[y][x] != Village {
        var edge := IsContinentEdge(mapCopy, x, y);
        if edge {
          edgeCells := edgeCells + [Cell(x, y, 0)];
        } else {
          inlandCells := inlandCells + [Cell(x, y, 0)];
        }
      }
      x := x + 1;
    }
  }

  /** The loops that fill `edgeCells` and `inlandCells`. */
  method ClassifyLand(mapCopy: BiomeMap) returns (edgeCells: seq<Cell>, inlandCells: seq<Cell>)
    requires IsBiomeMap(mapCopy)
    ensures edgeCells == KindCells(mapCopy, Edge)
    ensures inlandCells == KindCells(mapCopy, Inland)
  {
    edgeCells, inlandCells := [], [];
    var y := 0;
    while y < |mapCopy|
      invariant 0 <= y <= |mapCopy|
      invariant edgeCells == KindCellsUpTo(mapCopy, y, Edge)
      invariant inlandCells == KindCellsUpTo(mapCopy, y, Inland)
    {
      edgeCells, inlandCells := ClassifyRow(mapCopy, y, edgeCells, inlandCells);
      y := y + 1;
    }
  }

  // ---------------------------------------------------------------------------
  // Distance to the ocean

  /** `Math.max(map.length, map[0].length)`: the rings searched have radius below this. */
  function MaxRadius(g: BiomeMap): nat
    requires |g| > 0
  {
    Max(|g|, |g[0]|)
  }

  /** Some ocean cell lies at Manhattan distance exactly r from (x, y). */
  predicate RingHasOcean(g: BiomeMap, x: int, y: int, r: int) {
    exists ny, nx :: y - r <= ny <= y + r && x - r <= nx <= x + r && Abs(nx - x) + Abs(ny - y) == r && OceanAt(g, nx, ny)
  }

  /** The search from radius r on: the first ring with an ocean cell, or `Number.MAX_VALUE`. */
  function DistFrom(g: BiomeMap, x: int, y: int, r: int): int
    requires |g| > 0
    decreases MaxRadius(g) - r
  {
    if r >= MaxRadius(g) then MAX_VALUE
    else if RingHasOcean(g, x, y, r) then r
    else DistFrom(g, x, y, r + 1)
  }

  /** `minDistanceToOcean(map, x, y)`. */
  function MinDist(g: BiomeMap, x: int, y: int): int
    requires |g| > 0
  {
    DistFrom(g, x, y, 1)
  }

  lemma {:induction false} DistFromLeast(g: BiomeMap, x: int, y: int, r: int)
    requires |g| > 0 && r >= 1
    ensures var d := DistFrom(g, x, y, r);
      || (d == MAX_VALUE && forall k :: r <= k < MaxRadius(g) ==> !RingHasOcean(g, x, y, k))
      || (r <= d < MaxRadius(g) && RingHasOcean(g, x, y, d) && forall k :: r <= k < d ==> !RingHasOcean(g, x, y, k))
    decreases MaxRadius(g) - r
  {
    if r < MaxRadius(g) && !RingHasOcean(g, x, y, r) {
      DistFromLeast(g, x, y, r + 1);
    }
  }

  /**
   * The distance is that of the nearest ocean cell at Manhattan distance 1
   * up to the search bound, and `Number.MAX_VALUE` when there is none.
   */
  lemma {:induction false} MinDistNearest(g: BiomeMap, x: int, y: int)
    requires |g| > 0
    ensures var d := MinDist(g, x, y);
      || (d == MAX_VALUE && forall k :: 1 <= k < MaxRadius(g) ==> !RingHasOcean(g, x, y, k))
      || (1 <= d < MaxRadius(g) && RingHasOcean(g, x, y, d) && forall k :: 1 <= k < d ==> !RingHasOcean(g, x, y, k))
  {
    DistFromLeast(g, x, y, 1);
  }

  /** No ocean cell at distance r in the rows y - r up to (not including) yEnd. */
  predicate RingClear(g: BiomeMap, x: int, y: int, r: int, yEnd: int) {
    forall ny, nx :: y - r <= ny < yEnd && x - r <= nx <= x + r && Abs(nx - x) + Abs(ny - y) == r ==> !OceanAt(g, nx, ny)
  }

  /** No ocean cell at distance r in row ny, columns x - r up to (not including) xEnd. */
  predicate RowClear(g: BiomeMap, x: int, y: int, r: int, ny: int, xEnd: int) {
    forall nx :: x - r <= nx < xEnd && Abs(nx - x) + Abs(ny - y) == r ==> !OceanAt(g, nx, ny)
  }

  /** The two loops over dy and dx of one radius, stopping at the first ocean cell. */
  method ScanRing(m: BiomeMap, x: int, y: int, radius: int) returns (found: bool)
    requires IsBiomeMap(m) && radius >= 1
    ensures found == RingHasOcean(m, x, y, radius)
  {
    found := false;
    var dy := -radius;
    while dy <= radius && !found
      invariant -radius <= dy <= radius + 1
      invariant found ==> RingHasOcean(m, x, y, radius)
      invariant !found ==> RingClear(m, x, y, radius, y + dy)
    {
      var dx := -radius;
      while dx <= radius && !found
        invariant -radius <= dx <= radius + 1
        invariant !found
        invariant RowClear(m, x, y, radius, y + dy, x + dx)
      {
        if Abs(dx) + Abs(dy) == radius {
          var nx := x + dx;
          var ny := y + dy;
          if nx >= 0 && nx < |m[0]| && ny >= 0 && ny < |m| {
            if m[ny][nx] == Ocean {
              assert y - radius <= ny <= y + radius && x - radius <= nx <= x + radius && OceanAt(m, nx, ny);
              found := true;
              break;
            }
          }
        }
        dx := dx + 1;
      }
      dy := dy + 1;
    }
  }

  /** `minDistanceToOcean`: rings of growing radius until one holds an ocean cell. */
  method MinDistanceToOcean(m: BiomeMap, x: int, y: int) returns (minDist: int)
    requires IsBiomeMap(m)
    ensures minDist == MinDist(m, x, y)
  {
    minDist := MAX_VALUE;
    var found := false;
    var radius := 1;
    var maxRadius := Max(|m|, |m[0]|);
    while !found && radius < maxRadius
      invariant radius >= 1
      invariant found ==> minDist == MinDist(m, x, y)
      invariant !found ==> minDist == MAX_VALUE && DistFrom(m, x, y, radius) == MinDist(m, x, y)
      decreases maxRadius - radius
    {
      found := ScanRing(m, x, y, radius);
      if found {
        minDist := radius;
      }
      radius := radius + 1;
    }
  }

  /**
   * d is the distance from (x, y) to the ocean of g as the ring search finds
   * it: the least radius from 1 below the search bound whose ring holds an
   * ocean cell, or `Number.MAX_VALUE` when no such ring does.
   */
  ghost predicate NearestRing(g: BiomeMap, x: int, y: int, d: int)
    requires |g| > 0
  {
    || (d == MAX_VALUE && forall k :: 1 <= k < MaxRadius(g) ==> !RingHasOcean(g, x, y, k))
    || (1 <= d < MaxRadius(g) && RingHasOcean(g, x, y, d) && forall k :: 1 <= k < d ==> !RingHasOcean(g, x, y, k))
  }

  lemma AllNearest(g: BiomeMap, cs: seq<Cell>)
    requires |g| > 0
    ensures forall i :: 0 <= i < |cs| ==> NearestRing(g, cs[i].x, cs[i].y, MinDist(g, cs[i].x, cs[i].y))
  {
    forall i | 0 <= i < |cs|
      ensures NearestRing(g, cs[i].x, cs[i].y, MinDist(g, cs[i].x, cs[i].y))
    {
      MinDistNearest(g, cs[i].x, cs[i].y);
    }
  }

  /**
   * `inlandCells` after the loop that records each cell's distance to the
   * ocean of map g: the same cells in the same order, each with the ring
   * distance of its nearest ocean cell.
   */
  function WithDist(g: BiomeMap, cs: seq<Cell>): (r: seq<Cell>)
    requires |g| > 0
    ensures |r| == |cs|
    ensures forall i :: 0 <= i < |cs| ==> r[i].x == cs[i].x && r[i].y == cs[i].y && NearestRing(g, r[i].x, r[i].y, r[i].dist)
  {
    AllNearest(g, cs);
    seq(|cs|, i requires 0 <= i < |cs| => cs[i].(dist := MinDist(g, cs[i].x, cs[i].y)))
  }

  /** The loop that fills in `inlandCells[i].dist`. */
  method AssignDistances(mapCopy: BiomeMap, inland: seq<Cell>) returns (inlandCells: seq<Cell>)
    requires IsBiomeMap(mapCopy)
    ensures inlandCells == WithDist(mapCopy, inland)
  {
    inlandCells := inland;
    var i := 0;
    while i < |inlandCells|
      invariant 0 <= i <= |inlandCells| == |inland|
      invariant forall j :: 0 <= j < i ==> inlandCells[j] == WithDist(mapCopy, inland)[j]
      invariant forall j :: i <= j < |inland| ==> inlandCells[j] == inland[j]
    {
      var d := MinDistanceToOcean(mapCopy, inlandCells[i].x, inlandCells[i].y);
      inlandCells := inlandCells[i := inlandCells[i].(dist := d)];
      i := i + 1;
    }
  }

  /** The comparator `(a, b) => (a.dist || 0) - (b.dist || 0)` compares this key. */
  function DistKey(c: Cell): real {
    c.dist as real
  }

  // ---------------------------------------------------------------------------
  // Flooding listed cells

  /** Every listed cell is a cell of the map. */
  predicate OnMap(g: BiomeMap, cs: seq<Cell>) {
    forall i :: 0 <= i < |cs| ==> InBounds(g, cs[i].x, cs[i].y)
  }

  /** Some listed cell is at (x, y). */
  predicate ListsAt(cs: seq<Cell>, x: int, y: int) {
    exists i :: 0 <= i < |cs| && cs[i].x == x && cs[i].y == y
  }

  /** The map with the listed cells turned into ocean one after the other. */
  function Flood(g: BiomeMap, cs: seq<Cell>): (r: BiomeMap)
    requires OnMap(g, cs)
    ensures |r| == |g| && forall y :: 0 <= y < |g| ==> |r[y]| == |g[y]|
    decreases |cs|
  {
    if cs == [] then g
    else
      var c := cs[|cs| - 1];
      SetCell(Flood(g, cs[..|cs| - 1]), c.x, c.y, Ocean)
  }

  /** Flooding makes exactly the listed cells ocean and leaves the rest alone. */
  lemma {:induction false} FloodAt(g: BiomeMap, cs: seq<Cell>, x: int, y: int)
    requires OnMap(g, cs) && InBounds(g, x, y)
    ensures Flood(g, cs)[y][x] == if ListsAt(cs, x, y) then Ocean else g[y][x]
    decreases |cs|
  {
    if cs != [] {
      var front := cs[..|cs| - 1];
      var c := cs[|cs| - 1];
      FloodAt(g, front, x, y);
      if c.x == x && c.y == y {
        assert cs[|cs| - 1].x == x && cs[|cs| - 1].y == y;
      } else {
        assert forall i :: 0 <= i < |front| ==> front[i] == cs[i];
        if ListsAt(cs, x, y) {
          var i :| 0 <= i < |cs| && cs[i].x == x && cs[i].y == y;
          assert front[i] == cs[i];
        }
      }
    }
  }

  /** Flooding distinct land cells adds one ocean cell per listed cell. */
  lemma {:induction false} FloodCount(g: BiomeMap, cs: seq<Cell>)
    requires OnMap(g, cs) && DistinctPositions(cs)
    requires forall i :: 0 <= i < |cs| ==> g[cs[i].y][cs[i].x] != Ocean
    ensures Count(Flood(g, cs), Ocean) == Count(g, Ocean) + |cs|
    decreases |cs|
  {
    if cs != [] {
      var front := cs[..|cs| - 1];
      var c := cs[|cs| - 1];
      assert forall i :: 0 <= i < |front| ==> front[i] == cs[i];
      FloodCount(g, front);
      FloodAt(g, front, c.x, c.y);
      assert !ListsAt(front, c.x, c.y);
      CountUpdate(Flood(g, front), c.x, c.y, Ocean, Ocean);
    }
  }

  /** Flooding desert and plains cells turns only desert and plains into ocean. */
  lemma {:induction false} FloodChangesOnly(g: BiomeMap, cs: seq<Cell>)
    requires OnMap(g, cs)
    requires forall i :: 0 <= i < |cs| ==> g[cs[i].y][cs[i].x] in {Desert, Plains}
    ensures ChangesOnly(g, Flood(g, cs), {Desert, Plains}, Ocean)
  {
    forall y, x | 0 <= y < |g| && 0 <= x < |g[y]|
      ensures Flood(g, cs)[y][x] == g[y][x] || (g[y][x] in {Desert, Plains} && Flood(g, cs)[y][x] == Ocean)
    {
      FloodAt(g, cs, x, y);
    }
  }

  /** How many of n listed cells a conversion loop floods while `cellsToConvert - converted` was `rest` on entry. */
  function Taken(n: nat, rest: int): (k: nat)
    ensures k <= n
    ensures rest <= 0 ==> k == 0
    ensures rest > 0 ==> k <= rest && (k == n || k == rest)
  {
    if rest <= 0 then 0 else Min(n, rest)
  }

  /** One of the two conversion loops: flood listed cells while the quota is not met. */
  method ConvertCells(mapCopy0: BiomeMap, cells: seq<Cell>, converted0: int, cellsToConvert: int)
    returns (mapCopy: BiomeMap, converted: int)
    requires OnMap(mapCopy0, cells)
    ensures converted == converted0 + Taken(|cells|, cellsToConvert - converted0)
    ensures mapCopy == Flood(mapCopy0, cells[..Taken(|cells|, cellsToConvert - converted0)])
  {
    mapCopy, converted := mapCopy0, converted0;
    var i := 0;
    while i < |cells| && converted < cellsToConvert
      invariant 0 <= i <= |cells|
      invariant converted == converted0 + i
      invariant i == 0 || i <= cellsToConvert - converted0
      invariant mapCopy == Flood(mapCopy0, cells[..i])
    {
      var c := cells[i];
      assert cells[..i + 1][..i] == cells[..i];
      mapCopy := mapCopy[c.y := mapCopy[c.y][c.x := Ocean]];
      converted := converted + 1;
      i := i + 1;
    }
  }

  // ---------------------------------------------------------------------------
  // The whole pass

  /** Same number of rows, and each row as long as in g. */
  predicate SameShape(g: BiomeMap, h: BiomeMap) {
    |h| == |g| && forall y :: 0 <= y < |g| ==> |h[y]| == |g[y]|
  }

  /** An order of exactly the edge cells, as the shuffle leaves `edgeCells`. */
  predicate IsEdgeOrder(g: BiomeMap, order: seq<Cell>)
    requires IsBiomeMap(g)
  {
    multiset(order) == multiset(KindCells(g, Edge))
  }

  /** Where an element of b sits in a reordering a of b. */
  lemma {:induction false} PermIndex<T>(a: seq<T>, b: seq<T>, j: nat) returns (i: nat)
    requires multiset(a) == multiset(b) && j < |b|
    ensures i < |a| && a[i] == b[j]
  {
    assert b[j] in multiset(b);
    assert b[j] in a;
    i :| i < |a| && a[i] == b[j];
  }

  /** A reordering of the edge cells still lists each edge cell once. */
  lemma {:induction false} EdgeOrderFacts(g: BiomeMap, order: seq<Cell>)
    requires IsBiomeMap(g) && IsEdgeOrder(g, order)
    ensures |order| == |KindCells(g, Edge)|
    ensures OnMap(g, order) && Listed(g, order, Edge) && DistinctPositions(order)
  {
    var cs := KindCells(g, Edge);
    assert |order| == |multiset(order)| == |multiset(cs)| == |cs|;
    forall i | 0 <= i < |order|
      ensures InBounds(g, order[i].x, order[i].y) && OfKind(g, order[i].x, order[i].y, Edge) && order[i].dist == 0
    {
      var j := PermIndex(cs, order, i);
    }
    assert NoDup(cs);
    NoDupPerm(order, cs);
  }

  /** Every edge cell has a place in a reordering of the edge cells. */
  lemma {:induction false} EdgeOrderComplete(g: BiomeMap, order: seq<Cell>, x: int, y: int) returns (i: nat)
    requires IsBiomeMap(g) && IsEdgeOrder(g, order) && InBounds(g, x, y) && OfKind(g, x, y, Edge)
    ensures i < |order| && order[i] == Cell(x, y, 0)
  {
    var j := KindCellsComplete(g, |g|, x, y, Edge);
    i := PermIndex(order, KindCells(g, Edge), j);
  }

  /** Where a sorted inland cell came from: the inland cell at its position, with its distance on g1. */
  lemma {:induction false} RankedSource(g1: BiomeMap, inland: seq<Cell>, ranked: seq<Cell>, i: nat) returns (j: nat)
    requires |g1| > 0 && multiset(ranked) == multiset(WithDist(g1, inland)) && i < |ranked|
    ensures j < |inland| && ranked[i] == Cell(inland[j].x, inland[j].y, MinDist(g1, inland[j].x, inland[j].y))
  {
    j := PermIndex(WithDist(g1, inland), ranked, i);
  }

  /** Where an inland cell went in the sort. */
  lemma {:induction false} RankedPlace(g1: BiomeMap, inland: seq<Cell>, ranked: seq<Cell>, j: nat) returns (i: nat)
    requires |g1| > 0 && multiset(ranked) == multiset(WithDist(g1, inland)) && j < |inland|
    ensures i < |ranked| && ranked[i] == Cell(inland[j].x, inland[j].y, MinDist(g1, inland[j].x, inland[j].y))
  {
    i := PermIndex(ranked, WithDist(g1, inland), j);
  }

  /** Sorting inland cells with their distances keeps them on the map and at distinct positions. */
  lemma {:induction false} RankedFacts(g1: BiomeMap, inland: seq<Cell>, ranked: seq<Cell>)
    requires |g1| > 0 && multiset(ranked) == multiset(WithDist(g1, inland))
    ensures OnMap(g1, inland) ==> OnMap(g1, ranked)
    ensures DistinctPositions(inland) ==> DistinctPositions(ranked)
  {
    var ds := WithDist(g1, inland);
    forall i | 0 <= i < |ranked|
      ensures ranked[i].dist == MinDist(g1, ranked[i].x, ranked[i].y)
      ensures OnMap(g1, inland) ==> InBounds(g1, ranked[i].x, ranked[i].y)
    {
      var j := RankedSource(g1, inland, ranked, i);
    }
    if DistinctPositions(inland) {
      assert NoDup(ds);
      NoDupPerm(ranked, ds);
    }
  }

  /**
   * `inlandCells` after the distance loop and the sort by distance on map g1:
   * the same cells with their distances to the ocean of g1, nearest first.
   */
  function InlandOrder(g1: BiomeMap, inland: seq<Cell>): (r: seq<Cell>)
    requires |g1| > 0
    ensures |r| == |inland| && SortedBy(r, DistKey)
    ensures multiset(r) == multiset(WithDist(g1, inland))
    ensures DistinctPositions(inland) ==> DistinctPositions(r)
    ensures OnMap(g1, inland) ==> OnMap(g1, r)
  {
    var ranked := SortBy(WithDist(g1, inland), DistKey);
    RankedFacts(g1, inland, ranked);
    ranked
  }

  /** The second conversion loop on map g1, `rest` cells still to convert. */
  function FloodInland(g1: BiomeMap, inland: seq<Cell>, rest: int): (r: BiomeMap)
    requires |g1| > 0 && OnMap(g1, inland)
    ensures SameShape(g1, r)
  {
    var ranked := InlandOrder(g1, inland);
    Flood(g1, ranked[..Taken(|ranked|, rest)])
  }

  /** Both conversion loops, the edge cells taken in the order the shuffle left them. */
  function FloodLand(g: BiomeMap, edgeOrder: seq<Cell>, quota: int): (r: BiomeMap)
    requires IsBiomeMap(g) && IsEdgeOrder(g, edgeOrder)
    ensures SameShape(g, r)
  {
    EdgeOrderFacts(g, edgeOrder);
    var n1 := Taken(|edgeOrder|, quota);
    var g1 := Flood(g, edgeOrder[..n1]);
    if n1 < quota then FloodInland(g1, KindCells(g, Inland), quota - n1) else g1
  }

  /** The number of cells of a map. */
  function Area(g: BiomeMap): (n: nat)
    requires IsBiomeMap(g)
    ensures |g[0]| > 0 ==> n > 0
  {
    AreaPositive(|g|, |g[0]|);
    |g| * |g[0]|
  }

  lemma AreaPositive(h: nat, w: nat)
    ensures h > 0 && w > 0 ==> h * w > 0
  {
    if h > 0 && w > 0 {
      MulBounds(h, w);
    }
  }

  /** The ocean share that `parseFloat(calculateBiomePercentage(map)[OCEAN])` reads: rounded to one decimal. */
  function OceanShare(g: BiomeMap): (r: real)
    requires IsBiomeMap(g) && |g[0]| > 0
    ensures 0.0 <= r <= 100.0
    ensures ExactShare(g) - 0.05 < r <= ExactShare(g) + 0.05
  {
    OceanWithinArea(g);
    var t := Tenths(Count(g, Ocean), Area(g));
    TenthsShare(Count(g, Ocean), Area(g), t);
    t as real / 10.0
  }

  /** A map has no more ocean cells than cells. */
  lemma OceanWithinArea(g: BiomeMap)
    requires IsBiomeMap(g) && |g[0]| > 0
    ensures Count(g, Ocean) <= Area(g)
  {
    CoverageGrid(g, |g|, |g[0]|);
  }

  /** A per-mille value rounded to the nearest unit is, in tenths of a percent, within 0.05 of the percentage. */
  lemma TenthsShare(c: nat, total: nat, t: nat)
    requires total > 0
    requires t as real - 0.5 <= 1000.0 * c as real / total as real < t as real + 0.5
    ensures PercentOf(c, total) - 0.05 < t as real / 10.0 <= PercentOf(c, total) + 0.05
  {
    assert 1000.0 * c as real / total as real == 10.0 * PercentOf(c, total);
  }

  /** A count within its total is a percentage between 0 and 100. */
  lemma PercentBounds(c: nat, total: nat)
    requires 0 < total && c <= total
    ensures 0.0 <= PercentOf(c, total) <= 100.0
  {
    var q, t := PercentOf(c, total), total as real;
    MulDiv(100.0 * c as real, t);
    assert t * q == 100.0 * c as real;
    assert (100.0 - q) * t == 100.0 * t - t * q;
    FactorSign(100.0 - q, t);
  }

  /** `count` cells of `total` as an unrounded percentage. */
  function PercentOf(count: nat, total: nat): real
    requires total > 0
  {
    100.0 * count as real / total as real
  }

  /** The ocean share of g, unrounded. */
  function ExactShare(g: BiomeMap): (r: real)
    requires IsBiomeMap(g) && |g[0]| > 0
    ensures 0.0 <= r <= 100.0
    ensures r == 0.0 <==> Count(g, Ocean) == 0
  {
    OceanWithinArea(g);
    PercentBounds(Count(g, Ocean), Area(g));
    PercentOf(Count(g, Ocean), Area(g))
  }

  /** The target number of ocean cells less the current one, each rounded up, for `total` cells. */
  function QuotaOf(total: int, target: real, share: real): int {
    Ceil(total as real * target / 100.0) - Ceil(total as real * share / 100.0)
  }

  /** `cellsToConvert` for map g when its ocean share is read as `share`. */
  function Quota(g: BiomeMap, share: real, target: real): (q: int)
    requires IsBiomeMap(g) && |g[0]| > 0
    ensures target <= share ==> q <= 0
    ensures share == ExactShare(g) ==> q == Ceil(Area(g) as real * target / 100.0) - Count(g, Ocean)
  {
    QuotaFacts(Area(g), Count(g, Ocean), target, share);
    QuotaOf(Area(g), target, share)
  }

  lemma QuotaFacts(total: nat, c: nat, target: real, share: real)
    requires total > 0
    ensures target <= share ==> QuotaOf(total, target, share) <= 0
    ensures share == PercentOf(c, total) ==> QuotaOf(total, target, share) == Ceil(total as real * target / 100.0) - c
  {
    if target <= share {
      ScaledOrder(total, target, share);
    }
    if share == PercentOf(c, total) {
      ExactQuotaIs(c, total, target);
    }
  }

  /** Rounding up keeps the order of two percentages of the same total. */
  lemma ScaledOrder(total: nat, target: real, share: real)
    ensures target <= share ==> Ceil(total as real * target / 100.0) <= Ceil(total as real * share / 100.0)
  {
    if target <= share {
      var a, b := total as real * target / 100.0, total as real * share / 100.0;
      assert total as real * target <= total as real * share;
      assert a <= b;
      CeilMonotone(a, b);
    }
  }

  lemma CeilMonotone(a: real, b: real)
    requires a <= b
    ensures Ceil(a) <= Ceil(b)
  {
  }

  /**
   * The pass on map g from generator state s, with the current ocean share
   * read as `share`: the map it returns and the state it leaves.
   * `_ensureOceanPercentage(map, target)` as written is the pass with
   * `share == OceanShare(g)`; the corrected pass reads `ExactShare(g)`.
   */
  function TopUp(g: BiomeMap, share: real, target: real, shuffle: (seq<Cell>, State) -> Shuffled<Cell>, s: State): (c: Carried<BiomeMap>)
    requires IsBiomeMap(g) && |g[0]| > 0 && IsShuffler(shuffle)
    ensures SameShape(g, c.value) && IsBiomeMap(c.value) && |c.value[0]| == |g[0]|
  {
    if share >= target then Carried(g, s)
    else
      var sorted := shuffle(KindCells(g, Edge), s);
      Carried(FloodLand(g, sorted.order, Quota(g, share, target)), Advance(s, sorted.calls))
  }

  /** The second conversion loop with the distance loop and the sort before it. */
  method ConvertInland(mapCopy0: BiomeMap, inland: seq<Cell>, converted: int, cellsToConvert: int) returns (mapCopy: BiomeMap)
    requires IsBiomeMap(mapCopy0) && OnMap(mapCopy0, inland)
    ensures mapCopy == FloodInland(mapCopy0, inland, cellsToConvert - converted)
  {
    var inlandCells := AssignDistances(mapCopy0, inland);
    inlandCells := SortBy(inlandCells, DistKey);
    assert inlandCells == InlandOrder(mapCopy0, inland);
    var done;
    mapCopy, done := ConvertCells(mapCopy0, inlandCells, converted, cellsToConvert);
  }

  /** The target number of ocean cells less the current one, each rounded up. */
  method CellsToConvert(totalCells: int, targetPercentage: real, currentOceanPercentage: real) returns (cellsToConvert: int)
    ensures cellsToConvert == QuotaOf(totalCells, targetPercentage, currentOceanPercentage)
  {
    var targetOceanCells := Ceil(totalCells as real * targetPercentage / 100.0);
    var currentOceanCells := Ceil(totalCells as real * currentOceanPercentage / 100.0);
    cellsToConvert := targetOceanCells - currentOceanCells;
  }

  /** Both conversion loops over the edge cells in the order given and the inland cells as classified. */
  method ConvertInOrder(input: BiomeMap, edgeCells: seq<Cell>, inlandCells: seq<Cell>, cellsToConvert: int)
    returns (mapCopy: BiomeMap)
    requires IsBiomeMap(input) && IsEdgeOrder(input, edgeCells) && inlandCells == KindCells(input, Inland)
    ensures mapCopy == FloodLand(input, edgeCells, cellsToConvert)
  {
    EdgeOrderFacts(input, edgeCells);
    var converted;
    mapCopy, converted := ConvertCells(input, edgeCells, 0, cellsToConvert);
    if converted < cellsToConvert {
      ShapeCarries(input, mapCopy, inlandCells);
      mapCopy := ConvertInland(mapCopy, inlandCells, converted, cellsToConvert);
    }
  }

  /** A map of the same shape as g is a map too, and holds every cell listed on g. */
  lemma ShapeCarries(g: BiomeMap, h: BiomeMap, cs: seq<Cell>)
    requires IsBiomeMap(g) && SameShape(g, h) && OnMap(g, cs)
    ensures IsBiomeMap(h) && OnMap(h, cs)
  {
  }

  /** From the classifying loops on: edge cells first, then inland cells, until `cellsToConvert` are converted. */
  method ConvertLand(input: BiomeMap, cellsToConvert: int, shuffle: (seq<Cell>, State) -> Shuffled<Cell>, rng: Rng)
    returns (mapCopy: BiomeMap)
    requires IsBiomeMap(input) && IsShuffler(shuffle)
    modifies rng
    ensures rng.seed == Advance(old(rng.seed), shuffle(KindCells(input, Edge), old(rng.seed)).calls)
    ensures mapCopy == FloodLand(input, shuffle(KindCells(input, Edge), old(rng.seed)).order, cellsToConvert)
  {
    var edgeCells, inlandCells := ClassifyLand(input);
    edgeCells := rng.SortRandomly(edgeCells, shuffle);
    mapCopy := ConvertInOrder(input, edgeCells, inlandCells, cellsToConvert);
  }

  /** `_ensureOceanPercentage` as written: the current share is the one-decimal percentage. */
  method EnsureOceanPercentage(input: BiomeMap, targetPercentage: real, shuffle: (seq<Cell>, State) -> Shuffled<Cell>, rng: Rng)
    returns (mapCopy: BiomeMap)
    requires IsBiomeMap(input) && |input[0]| > 0 && IsShuffler(shuffle)
    modifies rng
    ensures Carried(mapCopy, rng.seed) == TopUp(input, OceanShare(input), targetPercentage, shuffle, old(rng.seed))
  {
    mapCopy := input;
    var biomePercentages := CalculateBiomePercentage(mapCopy);
    var currentOceanPercentage := biomePercentages[Ocean] as real / 10.0;
    assert currentOceanPercentage == OceanShare(input);
    if currentOceanPercentage >= targetPercentage {
      return;
    }
    var cellsToConvert := CellsToConvert(|input| * |input[0]|, targetPercentage, currentOceanPercentage);
    mapCopy := ConvertLand(input, cellsToConvert, shuffle, rng);
  }

  /**
   * `_ensureOceanPercentage` with the current share taken from the exact
   * ocean count instead of the rounded percentage; the rest as written.
   */
  method EnsureOceanPercentageExact(input: BiomeMap, targetPercentage: real, shuffle: (seq<Cell>, State) -> Shuffled<Cell>, rng: Rng)
    returns (mapCopy: BiomeMap)
    requires IsBiomeMap(input) && |input[0]| > 0 && IsShuffler(shuffle)
    modifies rng
    ensures Carried(mapCopy, rng.seed) == TopUp(input, ExactShare(input), targetPercentage, shuffle, old(rng.seed))
  {
    mapCopy := input;
    var totalCells := |input| * |input[0]|;
    var biomeCounts := CountBiomes(mapCopy);
    var currentOceanPercentage := PercentOf(biomeCounts[Ocean], totalCells);
    if currentOceanPercentage >= targetPercentage {
      return;
    }
    var cellsToConvert := CellsToConvert(totalCells, targetPercentage, currentOceanPercentage);
    mapCopy := ConvertLand(input, cellsToConvert, shuffle, rng);
  }

  // ---------------------------------------------------------------------------
  // What the pass promises

  /** Row y of g with its continent-edge cells turned into ocean. */
  function ShoreRow(g: BiomeMap, y: nat): (row: seq<Biome>)
    requires y < |g|
    ensures |row| == |g[y]|
    ensures forall x :: 0 <= x < |g[y]| ==> row[x] == if OfKind(g, x, y, Edge) then Ocean else g[y][x]
  {
    seq(|g[y]|, x requires 0 <= x < |g[y]| => if OfKind(g, x, y, Edge) then Ocean else g[y][x])
  }

  /** g with every continent-edge cell turned into ocean. */
  function ShoreFlooded(g: BiomeMap): (r: BiomeMap)
    ensures |r| == |g| && forall y :: 0 <= y < |g| ==> r[y] == ShoreRow(g, y)
  {
    seq(|g|, y requires 0 <= y < |g| => ShoreRow(g, y))
  }

  /** Flooding all edge cells, in any order, floods exactly the edge cells. */
  lemma {:induction false} ShoreFloodedIs(g: BiomeMap, order: seq<Cell>)
    requires IsBiomeMap(g) && IsEdgeOrder(g, order)
    ensures OnMap(g, order) && Flood(g, order) == ShoreFlooded(g)
  {
    EdgeOrderFacts(g, order);
    var f := Flood(g, order);
    forall y | 0 <= y < |g|
      ensures f[y] == ShoreFlooded(g)[y]
    {
      forall x | 0 <= x < |g[y]|
        ensures f[y][x] == ShoreRow(g, y)[x]
      {
        FloodAt(g, order, x, y);
        if OfKind(g, x, y, Edge) {
          var i := EdgeOrderComplete(g, order, x, y);
          assert order[i].x == x && order[i].y == y;
        } else {
          assert !ListsAt(order, x, y);
        }
      }
      assert f[y] == ShoreRow(g, y);
    }
  }

  /** The first loop floods only desert and plains. */
  lemma {:induction false} EdgePhaseChangesOnly(g: BiomeMap, order: seq<Cell>, n: nat)
    requires IsBiomeMap(g) && IsEdgeOrder(g, order) && n <= |order|
    ensures OnMap(g, order)
    ensures ChangesOnly(g, Flood(g, order[..n]), {Desert, Plains}, Ocean)
  {
    EdgeOrderFacts(g, order);
    var front := order[..n];
    assert forall i :: 0 <= i < |front| ==> front[i] == order[i];
    FloodChangesOnly(g, front);
  }

  /** The first loop floods one new ocean cell per cell it takes. */
  lemma {:induction false} EdgePhaseCount(g: BiomeMap, order: seq<Cell>, n: nat)
    requires IsBiomeMap(g) && IsEdgeOrder(g, order) && n <= |order|
    ensures OnMap(g, order)
    ensures Count(Flood(g, order[..n]), Ocean) == Count(g, Ocean) + n
  {
    EdgeOrderFacts(g, order);
    var front := order[..n];
    assert forall i :: 0 <= i < |front| ==> front[i] == order[i];
    FloodCount(g, front);
  }

  /** When the first loop falls short of the quota it has flooded every edge cell. */
  lemma {:induction false} EdgePhaseAll(g: BiomeMap, order: seq<Cell>, quota: int)
    requires IsBiomeMap(g) && IsEdgeOrder(g, order) && Taken(|order|, quota) < quota
    ensures OnMap(g, order)
    ensures Taken(|order|, quota) == |order| && Flood(g, order[..Taken(|order|, quota)]) == ShoreFlooded(g)
  {
    ShoreFloodedIs(g, order);
    assert order[..|order|] == order;
  }

  /** The inland cells are cells of the map with every edge cell flooded, and hold desert or plains there. */
  lemma {:induction false} InlandOnShore(g: BiomeMap)
    requires IsBiomeMap(g)
    ensures OnMap(ShoreFlooded(g), KindCells(g, Inland))
    ensures forall i :: 0 <= i < |KindCells(g, Inland)| ==>
      ShoreFlooded(g)[KindCells(g, Inland)[i].y][KindCells(g, Inland)[i].x] == g[KindCells(g, Inland)[i].y][KindCells(g, Inland)[i].x]
  {
  }

  /** The second loop run once the first has flooded every edge cell, `rest` cells still to convert. */
  function AfterShore(g: BiomeMap, rest: int): (r: BiomeMap)
    requires IsBiomeMap(g)
    ensures SameShape(g, r)
  {
    InlandOnShore(g);
    FloodInland(ShoreFlooded(g), KindCells(g, Inland), rest)
  }

  /** The second loop, on the map with the edge cells flooded, floods only desert and plains. */
  lemma {:induction false} InlandPhaseChangesOnly(g: BiomeMap, rest: int)
    requires IsBiomeMap(g)
    ensures ChangesOnly(ShoreFlooded(g), AfterShore(g, rest), {Desert, Plains}, Ocean)
  {
    InlandOnShore(g);
    var g1 := ShoreFlooded(g);
    var inland := KindCells(g, Inland);
    var ranked := InlandOrder(g1, inland);
    var front := ranked[..Taken(|ranked|, rest)];
    forall i | 0 <= i < |front|
      ensures g1[front[i].y][front[i].x] in {Desert, Plains}
    {
      var j := RankedSource(g1, inland, ranked, i);
    }
    FloodChangesOnly(g1, front);
  }

  /** The second loop floods one new ocean cell per cell it takes. */
  lemma {:induction false} InlandPhaseCount(g: BiomeMap, rest: int)
    requires IsBiomeMap(g)
    ensures Count(AfterShore(g, rest), Ocean) == Count(ShoreFlooded(g), Ocean) + Taken(|KindCells(g, Inland)|, rest)
  {
    InlandOnShore(g);
    var g1 := ShoreFlooded(g);
    var inland := KindCells(g, Inland);
    var ranked := InlandOrder(g1, inland);
    var front := ranked[..Taken(|ranked|, rest)];
    forall i | 0 <= i < |front|
      ensures g1[front[i].y][front[i].x] != Ocean
    {
      var j := RankedSource(g1, inland, ranked, i);
    }
    assert DistinctPositions(front);
    FloodCount(g1, front);
  }

  /** Flooding every edge cell turns only desert and plains into ocean. */
  lemma {:induction false} ShoreChangesOnly(g: BiomeMap)
    requires IsBiomeMap(g)
    ensures ChangesOnly(g, ShoreFlooded(g), {Desert, Plains}, Ocean)
  {
    var edges := KindCells(g, Edge);
    ShoreFloodedIs(g, edges);
    FloodChangesOnly(g, edges);
  }

  /** Flooding every edge cell adds one ocean cell per edge cell. */
  lemma {:induction false} ShoreCount(g: BiomeMap)
    requires IsBiomeMap(g)
    ensures Count(ShoreFlooded(g), Ocean) == Count(g, Ocean) + |KindCells(g, Edge)|
  {
    var edges := KindCells(g, Edge);
    ShoreFloodedIs(g, edges);
    FloodCount(g, edges);
  }

  /** Both loops with the first one exhausted change only desert and plains. */
  lemma {:induction false} AfterShoreChangesOnly(g: BiomeMap, rest: int)
    requires IsBiomeMap(g)
    ensures ChangesOnly(g, AfterShore(g, rest), {Desert, Plains}, Ocean)
  {
    ShoreChangesOnly(g);
    InlandPhaseChangesOnly(g, rest);
    ChangesOnlyTrans(g, ShoreFlooded(g), AfterShore(g, rest), {Desert, Plains}, Ocean);
  }

  /**
   * When the edge cells fall short of the quota, both loops flood
   * min(quota, desert and plains cells) cells.
   */
  lemma {:induction false} AfterShoreCount(g: BiomeMap, quota: int)
    requires IsBiomeMap(g) && |KindCells(g, Edge)| < quota
    ensures Count(AfterShore(g, quota - |KindCells(g, Edge)|), Ocean) == Count(g, Ocean) + Taken(Count(g, Desert) + Count(g, Plains), quota)
  {
    ShoreThenInland(g, quota - |KindCells(g, Edge)|);
    LandCells(g);
    TakenSplit(|KindCells(g, Edge)|, |KindCells(g, Inland)|, Count(g, Desert) + Count(g, Plains), quota);
  }

  /** Both loops: every edge cell flooded, then min(rest, inland cells) inland cells. */
  lemma ShoreThenInland(g: BiomeMap, rest: int)
    requires IsBiomeMap(g)
    ensures Count(AfterShore(g, rest), Ocean) == Count(g, Ocean) + |KindCells(g, Edge)| + Taken(|KindCells(g, Inland)|, rest)
  {
    ShoreCount(g);
    InlandPhaseCount(g, rest);
  }

  /** Once the first loop is exhausted every edge cell is ocean, whatever the second loop does. */
  lemma {:induction false} AfterShoreEdges(g: BiomeMap, rest: int)
    requires IsBiomeMap(g)
    ensures forall ey, ex :: InBounds(g, ex, ey) && OfKind(g, ex, ey, Edge) ==> AfterShore(g, rest)[ey][ex] == Ocean
  {
    InlandPhaseChangesOnly(g, rest);
    assert forall ey, ex :: InBounds(g, ex, ey) && OfKind(g, ex, ey, Edge) ==> ShoreFlooded(g)[ey][ex] == Ocean;
  }

  /** When the first loop falls short of the quota, the pass is the second loop on the map with every edge cell flooded. */
  lemma {:induction false} FloodLandShort(g: BiomeMap, order: seq<Cell>, quota: int)
    requires IsBiomeMap(g) && IsEdgeOrder(g, order) && Taken(|order|, quota) < quota
    ensures Taken(|order|, quota) == |KindCells(g, Edge)|
    ensures FloodLand(g, order, quota) == AfterShore(g, quota - |KindCells(g, Edge)|)
  {
    EdgeOrderFacts(g, order);
    EdgePhaseAll(g, order, quota);
  }

  /** When the first loop meets the quota, the pass is the first loop alone. */
  lemma {:induction false} FloodLandMet(g: BiomeMap, order: seq<Cell>, quota: int)
    requires IsBiomeMap(g) && IsEdgeOrder(g, order) && Taken(|order|, quota) >= quota
    ensures |order| == |KindCells(g, Edge)| && OnMap(g, order)
    ensures FloodLand(g, order, quota) == Flood(g, order[..Taken(|order|, quota)])
  {
    EdgeOrderFacts(g, order);
  }

  /** The conversion loops turn only desert and plains into ocean, whatever the order of the edge cells. */
  lemma {:induction false} FloodLandChangesOnly(g: BiomeMap, order: seq<Cell>, quota: int)
    requires IsBiomeMap(g) && IsEdgeOrder(g, order)
    ensures ChangesOnly(g, FloodLand(g, order, quota), {Desert, Plains}, Ocean)
  {
    if Taken(|order|, quota) < quota {
      var rest := quota - |KindCells(g, Edge)|;
      FloodLandShort(g, order, quota);
      assert FloodLand(g, order, quota) == AfterShore(g, rest);
      AfterShoreChangesOnly(g, rest);
    } else {
      var n1 := Taken(|order|, quota);
      FloodLandMet(g, order, quota);
      assert FloodLand(g, order, quota) == Flood(g, order[..n1]);
      EdgePhaseChangesOnly(g, order, n1);
    }
  }

  /** The land cells are exactly the edge cells and the inland cells. */
  lemma {:induction false} LandCells(g: BiomeMap)
    requires IsBiomeMap(g)
    ensures |KindCells(g, Edge)| + |KindCells(g, Inland)| == Count(g, Desert) + Count(g, Plains)
  {
    KindCellsCount(g, |g|);
    assert g[..|g|] == g;
  }

  /** When the edge cells meet the quota, the first loop floods quota cells, no more than there are desert and plains. */
  lemma {:induction false} EdgePhaseCountMet(g: BiomeMap, order: seq<Cell>, quota: int)
    requires IsBiomeMap(g) && IsEdgeOrder(g, order) && Taken(|order|, quota) >= quota
    ensures OnMap(g, order)
    ensures Count(Flood(g, order[..Taken(|order|, quota)]), Ocean) == Count(g, Ocean) + Taken(Count(g, Desert) + Count(g, Plains), quota)
  {
    var n1 := Taken(|order|, quota);
    EdgePhaseCount(g, order, n1);
    EdgeOrderFacts(g, order);
    LandCells(g);
    TakenEnough(|order|, |KindCells(g, Inland)|, Count(g, Desert) + Count(g, Plains), quota);
  }

  /**
   * The conversion loops flood exactly min(quota, desert and plains cells)
   * cells, whatever the order of the edge cells.
   */
  lemma {:induction false} FloodLandCount(g: BiomeMap, order: seq<Cell>, quota: int)
    requires IsBiomeMap(g) && IsEdgeOrder(g, order)
    ensures Count(FloodLand(g, order, quota), Ocean) == Count(g, Ocean) + Taken(Count(g, Desert) + Count(g, Plains), quota)
  {
    if Taken(|order|, quota) < quota {
      FloodLandShort(g, order, quota);
      AfterShoreCount(g, quota);
    } else {
      FloodLandMet(g, order, quota);
      EdgePhaseCountMet(g, order, quota);
    }
  }

  /** Taking the quota from two lists in turn, the second only once the first is used up. */
  lemma TakenSplit(a: nat, b: nat, ab: nat, quota: int)
    requires a < quota && a + b == ab
    ensures a + Taken(b, quota - a) == Taken(ab, quota)
  {
  }

  lemma TakenEnough(a: nat, b: nat, ab: nat, quota: int)
    requires Taken(a, quota) >= quota && a + b == ab
    ensures Taken(a, quota) == Taken(ab, quota)
  {
  }

  /** The first loop alone never floods an inland cell. */
  lemma {:induction false} EdgePhaseDry(g: BiomeMap, order: seq<Cell>, n: nat, x: int, y: int)
    requires IsBiomeMap(g) && IsEdgeOrder(g, order) && n <= |order| && InBounds(g, x, y) && OfKind(g, x, y, Inland)
    ensures OnMap(g, order) && Flood(g, order[..n])[y][x] == g[y][x]
  {
    EdgeOrderFacts(g, order);
    FloodAt(g, order[..n], x, y);
    assert !ListsAt(order[..n], x, y);
  }

  /** When the first loop falls short of the quota, every edge cell ends up ocean. */
  lemma {:induction false} FloodLandShortEdges(g: BiomeMap, order: seq<Cell>, quota: int)
    requires IsBiomeMap(g) && IsEdgeOrder(g, order) && Taken(|order|, quota) < quota
    ensures forall ey, ex :: InBounds(g, ex, ey) && OfKind(g, ex, ey, Edge) ==> FloodLand(g, order, quota)[ey][ex] == Ocean
  {
    FloodLandShort(g, order, quota);
    AfterShoreEdges(g, quota - |KindCells(g, Edge)|);
  }

  /** When the first loop meets the quota, no inland cell is flooded. */
  lemma {:induction false} FloodLandMetDry(g: BiomeMap, order: seq<Cell>, quota: int, x: int, y: int)
    requires IsBiomeMap(g) && IsEdgeOrder(g, order) && Taken(|order|, quota) >= quota
    requires InBounds(g, x, y) && OfKind(g, x, y, Inland)
    ensures FloodLand(g, order, quota)[y][x] == g[y][x]
  {
    FloodLandMet(g, order, quota);
    EdgePhaseDry(g, order, Taken(|order|, quota), x, y);
  }

  /** No inland cell is flooded unless every edge cell is. */
  lemma {:induction false} FloodLandEdgeFirst(g: BiomeMap, order: seq<Cell>, quota: int, x: int, y: int)
    requires IsBiomeMap(g) && IsEdgeOrder(g, order) && InBounds(g, x, y) && OfKind(g, x, y, Inland)
    ensures FloodLand(g, order, quota)[y][x] == Ocean ==>
      forall ey, ex :: InBounds(g, ex, ey) && OfKind(g, ex, ey, Edge) ==> FloodLand(g, order, quota)[ey][ex] == Ocean
  {
    if Taken(|order|, quota) < quota {
      FloodLandShortEdges(g, order, quota);
    } else {
      FloodLandMetDry(g, order, quota, x, y);
    }
  }

  /**
   * Inland cells are flooded nearest to the ocean first: a flooded inland
   * cell is no farther from the ocean than one left as it was, the distance
   * measured once all edge cells are ocean.
   */
  lemma {:induction false} FloodLandNearestFirst(g: BiomeMap, order: seq<Cell>, quota: int, x1: int, y1: int, x2: int, y2: int)
    requires IsBiomeMap(g) && IsEdgeOrder(g, order)
    requires InBounds(g, x1, y1) && OfKind(g, x1, y1, Inland)
    requires InBounds(g, x2, y2) && OfKind(g, x2, y2, Inland)
    ensures FloodLand(g, order, quota)[y1][x1] == Ocean && FloodLand(g, order, quota)[y2][x2] != Ocean ==>
      MinDist(ShoreFlooded(g), x1, y1) <= MinDist(ShoreFlooded(g), x2, y2)
  {
    if Taken(|order|, quota) < quota {
      var rest := quota - |KindCells(g, Edge)|;
      FloodLandShort(g, order, quota);
      assert FloodLand(g, order, quota) == AfterShore(g, rest);
      AfterShoreNearestFirst(g, rest, x1, y1, x2, y2);
    } else {
      FloodLandMetDry(g, order, quota, x1, y1);
      assert FloodLand(g, order, quota)[y1][x1] != Ocean;
    }
  }

  /** The second loop after the first is exhausted floods nearer inland cells first. */
  lemma {:induction false} AfterShoreNearestFirst(g: BiomeMap, rest: int, x1: int, y1: int, x2: int, y2: int)
    requires IsBiomeMap(g)
    requires InBounds(g, x1, y1) && OfKind(g, x1, y1, Inland)
    requires InBounds(g, x2, y2) && OfKind(g, x2, y2, Inland)
    ensures AfterShore(g, rest)[y1][x1] == Ocean && AfterShore(g, rest)[y2][x2] != Ocean ==>
      MinDist(ShoreFlooded(g), x1, y1) <= MinDist(ShoreFlooded(g), x2, y2)
  {
    InlandOnShore(g);
    var g1 := ShoreFlooded(g);
    var inland := KindCells(g, Inland);
    var ranked := InlandOrder(g1, inland);
    var r := AfterShore(g, rest);
    if r[y1][x1] == Ocean && r[y2][x2] != Ocean {
      NearerFirst(g, g1, inland, ranked, Taken(|ranked|, rest), x1, y1, x2, y2);
    }
  }

  /** A cell of cs at position k that the first n cells do not list comes at or after position n. */
  lemma Unlisted(cs: seq<Cell>, n: nat, k: nat, x: int, y: int)
    requires n <= |cs| && k < |cs| && cs[k].x == x && cs[k].y == y && !ListsAt(cs[..n], x, y)
    ensures n <= k
  {
    assert forall t :: 0 <= t < n ==> cs[..n][t] == cs[t];
  }

  /** The second loop's step: a flooded sorted cell precedes a dry one, so its distance is no larger. */
  lemma {:induction false} NearerFirst(g: BiomeMap, g1: BiomeMap, inland: seq<Cell>, ranked: seq<Cell>, n: nat, x1: int, y1: int, x2: int, y2: int)
    requires IsBiomeMap(g) && SameShape(g, g1) && inland == KindCells(g, Inland) && OnMap(g1, inland)
    requires ranked == InlandOrder(g1, inland) && n <= |ranked|
    requires InBounds(g, x1, y1) && OfKind(g, x1, y1, Inland) && g1[y1][x1] != Ocean
    requires InBounds(g, x2, y2) && OfKind(g, x2, y2, Inland)
    requires Flood(g1, ranked[..n])[y1][x1] == Ocean && Flood(g1, ranked[..n])[y2][x2] != Ocean
    ensures MinDist(g1, x1, y1) <= MinDist(g1, x2, y2)
  {
    var front := ranked[..n];
    FloodAt(g1, front, x1, y1);
    FloodAt(g1, front, x2, y2);
    var i :| 0 <= i < |front| && front[i].x == x1 && front[i].y == y1;
    var j0 := KindCellsComplete(g, |g|, x2, y2, Inland);
    var k := RankedPlace(g1, inland, ranked, j0);
    var j1 := RankedSource(g1, inland, ranked, i);
    assert inland[j0] == Cell(x2, y2, 0);
    Unlisted(ranked, n, k, x2, y2);
    assert ranked[i] == front[i] && i < k;
    assert DistKey(ranked[i]) <= DistKey(ranked[k]);
  }

  /**
   * `_ensureOceanPercentage`: when the ocean share read already reaches the
   * target the map and the generator are untouched; otherwise only desert and
   * plains become ocean, exactly min(cellsToConvert, desert and plains cells)
   * of them, and villages stay.
   */
  lemma {:induction false} TopUpEffect(g: BiomeMap, share: real, target: real, shuffle: (seq<Cell>, State) -> Shuffled<Cell>, s: State)
    requires IsBiomeMap(g) && |g[0]| > 0 && IsShuffler(shuffle)
    ensures share >= target ==> TopUp(g, share, target, shuffle, s) == Carried(g, s)
    ensures var r := TopUp(g, share, target, shuffle, s).value;
      && ChangesOnly(g, r, {Desert, Plains}, Ocean)
      && Count(r, Village) == Count(g, Village)
      && Count(r, Ocean) == Count(g, Ocean) + (if share >= target then 0 else Taken(Count(g, Desert) + Count(g, Plains), Quota(g, share, target)))
  {
    var r := TopUp(g, share, target, shuffle, s).value;
    if share >= target {
      ChangesOnlyRefl(g, {Desert, Plains}, Ocean);
    } else {
      FloodLandChangesOnly(g, shuffle(KindCells(g, Edge), s).order, Quota(g, share, target));
      FloodLandCount(g, shuffle(KindCells(g, Edge), s).order, Quota(g, share, target));
    }
    ChangesOnlyKeepsOther(g, r, {Desert, Plains}, Ocean, Village);
  }

  /** In the map the pass returns, a flooded inland cell means every edge cell was flooded. */
  lemma {:induction false} TopUpEdgeFirst(g: BiomeMap, share: real, target: real, shuffle: (seq<Cell>, State) -> Shuffled<Cell>, s: State, x: int, y: int)
    requires IsBiomeMap(g) && |g[0]| > 0 && IsShuffler(shuffle)
    requires InBounds(g, x, y) && OfKind(g, x, y, Inland)
    ensures var r := TopUp(g, share, target, shuffle, s).value;
      r[y][x] == Ocean ==> forall ey, ex :: InBounds(g, ex, ey) && OfKind(g, ex, ey, Edge) ==> r[ey][ex] == Ocean
  {
    if share < target {
      FloodLandEdgeFirst(g, shuffle(KindCells(g, Edge), s).order, Quota(g, share, target), x, y);
    }
  }

  /** In the map the pass returns, flooded inland cells are no farther from the ocean than inland cells left dry. */
  lemma {:induction false} TopUpNearestFirst(g: BiomeMap, share: real, target: real, shuffle: (seq<Cell>, State) -> Shuffled<Cell>, s: State, x1: int, y1: int, x2: int, y2: int)
    requires IsBiomeMap(g) && |g[0]| > 0 && IsShuffler(shuffle)
    requires InBounds(g, x1, y1) && OfKind(g, x1, y1, Inland)
    requires InBounds(g, x2, y2) && OfKind(g, x2, y2, Inland)
    ensures var r := TopUp(g, share, target, shuffle, s).value;
      r[y1][x1] == Ocean && r[y2][x2] != Ocean ==> MinDist(ShoreFlooded(g), x1, y1) <= MinDist(ShoreFlooded(g), x2, y2)
  {
    if share < target {
      FloodLandNearestFirst(g, shuffle(KindCells(g, Edge), s).order, Quota(g, share, target), x1, y1, x2, y2);
    }
  }

  // ---------------------------------------------------------------------------
  // The share the pass reads

  /** Read unrounded, the share of c ocean cells gives back c as `currentOceanCells`. */
  lemma ExactOceanCells(c: nat, total: nat)
    requires total > 0
    ensures Ceil(total as real * PercentOf(c, total) / 100.0) == c
  {
    MulDiv(100.0 * c as real, total as real);
  }

  lemma MulDiv(a: real, t: real)
    requires t > 0.0
    ensures t * (a / t) == a
  {
  }

  lemma DivLess(a: real, t: real, b: real)
    requires t > 0.0 && a / t < b
    ensures a < b * t
  {
    MulDiv(a, t);
  }

  lemma DivAtLeast(a: real, t: real, b: real)
    requires t > 0.0 && a >= b * t
    ensures a / t >= b
  {
    MulDiv(a, t);
  }

  /** Read unrounded, the quota is the target number of cells less the ocean cells there are. */
  lemma ExactQuotaIs(c: nat, total: nat, target: real)
    requires total > 0
    ensures QuotaOf(total, target, PercentOf(c, total)) == Ceil(total as real * target / 100.0) - c
  {
    ExactOceanCells(c, total);
  }

  /**
   * Read unrounded, the quota for c ocean cells short of the target is
   * positive, and flooding it reaches the target.
   */
  lemma ExactQuota(c: nat, total: nat, target: real)
    requires total > 0 && PercentOf(c, total) < target
    ensures QuotaOf(total, target, PercentOf(c, total)) > 0
    ensures PercentOf(c + QuotaOf(total, target, PercentOf(c, total)), total) >= target
  {
    DivLess(100.0 * c as real, total as real, target);
    ExactQuotaIs(c, total, target);
    DivAtLeast(100.0 * Ceil(total as real * target / 100.0) as real, total as real, target);
  }

  /** A map of the same shape as g has the cells of g. */
  lemma SameShapeTotal(g: BiomeMap, r: BiomeMap)
    requires IsBiomeMap(g) && SameShape(g, r)
    ensures Count(r, Ocean) + Count(r, Desert) + Count(r, Plains) + Count(r, Village) == |g| * |g[0]|
    ensures Count(g, Ocean) + Count(g, Desert) + Count(g, Plains) + Count(g, Village) == |g| * |g[0]|
  {
    CoverageGrid(g, |g|, |g[0]|);
    CoverageGrid(r, |g|, |g[0]|);
  }

  /**
   * The corrected pass keeps its promise: the map it returns is at least
   * `target` percent ocean, or no desert or plains is left to flood.
   */
  lemma {:induction false} ExactTopUpReachesTarget(g: BiomeMap, target: real, shuffle: (seq<Cell>, State) -> Shuffled<Cell>, s: State)
    requires IsBiomeMap(g) && |g[0]| > 0 && IsShuffler(shuffle)
    ensures var r := TopUp(g, ExactShare(g), target, shuffle, s).value;
      IsBiomeMap(r) && |r[0]| > 0 && (ExactShare(r) >= target || Count(r, Desert) + Count(r, Plains) == 0)
  {
    if ExactShare(g) < target {
      ExactTopUpShort(g, target, shuffle, s);
    }
  }

  /** The corrected pass on a map short of the target. */
  lemma ExactTopUpShort(g: BiomeMap, target: real, shuffle: (seq<Cell>, State) -> Shuffled<Cell>, s: State)
    requires IsBiomeMap(g) && |g[0]| > 0 && IsShuffler(shuffle) && ExactShare(g) < target
    ensures var r := TopUp(g, ExactShare(g), target, shuffle, s).value;
      ExactShare(r) >= target || Count(r, Desert) + Count(r, Plains) == 0
  {
    var share := ExactShare(g);
    var r := TopUp(g, share, target, shuffle, s).value;
    TopUpCounts(g, share, target, shuffle, s);
    ReachOrExhaust(Count(g, Ocean), Count(g, Desert) + Count(g, Plains), Area(g), target,
                   Count(r, Ocean), Count(r, Desert) + Count(r, Plains));
    assert ExactShare(r) == PercentOf(Count(r, Ocean), Area(g));
  }

  /** The counts of the map the pass returns: ocean gained is land lost. */
  lemma TopUpCounts(g: BiomeMap, share: real, target: real, shuffle: (seq<Cell>, State) -> Shuffled<Cell>, s: State)
    requires IsBiomeMap(g) && |g[0]| > 0 && IsShuffler(shuffle)
    ensures var r := TopUp(g, share, target, shuffle, s).value;
      && Count(r, Ocean) == Count(g, Ocean) + (if share >= target then 0 else Taken(Count(g, Desert) + Count(g, Plains), Quota(g, share, target)))
      && Count(r, Ocean) + Count(r, Desert) + Count(r, Plains) == Count(g, Ocean) + Count(g, Desert) + Count(g, Plains)
  {
    var r := TopUp(g, share, target, shuffle, s).value;
    TopUpEffect(g, share, target, shuffle, s);
    SameShapeTotal(g, r);
  }

  /**
   * Short of the target by the unrounded share, flooding the quota or every
   * land cell: the ocean reaches the target, or no land is left.
   */
  lemma ReachOrExhaust(c: nat, land: nat, total: nat, target: real, ocean: nat, left: nat)
    requires total > 0 && PercentOf(c, total) < target
    requires ocean == c + Taken(land, QuotaOf(total, target, PercentOf(c, total)))
    requires ocean + left == c + land
    ensures PercentOf(ocean, total) >= target || left == 0
  {
    ExactQuota(c, total, target);
  }

  /**
   * The pass as written, asked for 70 percent ocean on a map of nine cells
   * with five ocean cells and four of desert or plains, reads 55.6 percent,
   * counts six ocean cells where there are five, and floods one cell: the map
   * ends at six of nine cells ocean, under 70 percent, with three cells of
   * desert or plains left.
   */
  lemma RoundedShareFallsShort(g: BiomeMap, shuffle: (seq<Cell>, State) -> Shuffled<Cell>, s: State)
    requires IsBiomeMap(g) && |g| == 3 && |g[0]| == 3 && IsShuffler(shuffle)
    requires Count(g, Ocean) == 5 && Count(g, Desert) + Count(g, Plains) == 4
    ensures var r := TopUp(g, OceanShare(g), 70.0, shuffle, s).value;
      && Count(r, Ocean) == 6 && PercentOf(Count(r, Ocean), 9) < 70.0
      && Count(r, Desert) + Count(r, Plains) == 3
  {
    var share := OceanShare(g);
    FiveNinths();
    assert share == 55.6 && Quota(g, share, 70.0) == 1;
    var r := TopUp(g, share, 70.0, shuffle, s).value;
    TopUpCounts(g, share, 70.0, shuffle, s);
    OneCellFlooded(Count(r, Ocean), Count(r, Desert) + Count(r, Plains), share, Quota(g, share, 70.0));
  }

  /** Five ocean cells and four of land, the share read as 55.6 and a quota of one: six ocean cells, three of land. */
  lemma OneCellFlooded(ocean: nat, left: nat, share: real, quota: int)
    requires share == 55.6 && quota == 1
    requires ocean == 5 + (if share >= 70.0 then 0 else Taken(4, quota)) && ocean + left == 9
    ensures ocean == 6 && left == 3
  {
  }

  /** Five cells of nine print as 55.6 percent, and from there 70 percent is one more cell; six cells are under 70 percent. */
  lemma FiveNinths()
    ensures Tenths(5, 9) as real / 10.0 == 55.6
    ensures QuotaOf(9, 70.0, 55.6) == 1
    ensures PercentOf(6, 9) < 70.0
  {
    assert Tenths(5, 9) == 556;
    assert Ceil(9.0 * 70.0 / 100.0) == 7;
    assert Ceil(9.0 * 55.6 / 100.0) == 6;
  }

  /** A map the rounded reading leaves short of 70 percent: five ocean cells and four plains cells. */
  lemma FiveOfNine() returns (g: BiomeMap)
    ensures IsBiomeMap(g) && |g| == 3 && |g[0]| == 3
    ensures Count(g, Ocean) == 5 && Count(g, Desert) + Count(g, Plains) == 4
  {
    g := [[Ocean, Ocean, Ocean], [Ocean, Ocean, Plains], [Plains, Plains, Plains]];
    assert g[1..][1..][1..] == [];
  }
}
