/**
 * Step 5 of both generators, `_generateVillages`: a few compact clusters of
 * villages, each grown breadth-first from a random seed cell, and then, if the
 * clusters fell short of the target, random candidate cells. The pass writes
 * into the map in place.
 *
 * The two generators differ in four places, named by Variant:
 *  - candidates: Plains and Desert cells (MapGenerator.ts), Plains only (MapGenerator.js);
 *  - a seed: refused when ocean lies within three cells (.ts), or when it no longer holds Plains (.js);
 *  - growth: to the eight surrounding cells with probability 0.9 - d / (size * 0.1) (.ts),
 *    to the four side neighbours with probability 0.95 - d / (size * 0.05) (.js);
 *  - the fallback: writes every chosen cell (.ts), only a Plains cell (.js).
 */
module Villages {
  import opened JsNumeric
  import opened Grids
  import opened Biomes
  import opened Sorting
  import opened SeededRandom

  /** Which generator's pass: MapGenerator.ts or the older MapGenerator.js. */
  datatype Variant = Modern | Legacy

  /** The `map` array the pass receives by reference and writes into. */
  class MapData {
    var cells: BiomeMap

    constructor (cells: BiomeMap)
      ensures this.cells == cells
    {
      this.cells := cells;
    }

    /** `map[y][x] = BIOMES.VILLAGE`. */
    method Settle(x: int, y: int)
      requires InBounds(cells, x, y)
      modifies this
      ensures cells == SetCell(old(cells), x, y, Village)
    {
      cells := cells[y := cells[y][x := Village]];
    }
  }

  /** The biomes a village may replace. */
  function Eligible(v: Variant): set<Biome> {
    match v
    case Modern => {Plains, Desert}
    case Legacy => {Plains}
  }

  // ---------------------------------------------------------------------------
  // The candidate pool

  /** The candidates among the first n cells of row y, left to right. */
  function RowCandidates(g: BiomeMap, v: Variant, y: nat, n: nat): (r: seq<Pos>)
    requires y < |g| && n <= |g[y]|
    ensures PoolOk(g, v, r)
    ensures forall i :: 0 <= i < |r| ==> r[i].y == y && r[i].x < n
  {
    if n == 0 then []
    else
      var front := RowCandidates(g, v, y, n - 1);
      var last: seq<Pos> := if g[y][n - 1] in Eligible(v) then [Pos(n - 1, y)] else [];
      NoDupConcat(front, last);
      front + last
  }

  /**
   * The candidates of the first k rows, row by row: the pool the scanning
   * loops push, each candidate cell of those rows once and nothing else.
   */
  function Candidates(g: BiomeMap, v: Variant, k: nat): (r: seq<Pos>)
    requires k <= |g|
    ensures PoolOk(g, v, r)
    ensures forall i :: 0 <= i < |r| ==> r[i].y < k
  {
    if k == 0 then []
    else
      var front, row := Candidates(g, v, k - 1), RowCandidates(g, v, k - 1, |g[k - 1]|);
      NoDupConcat(front, row);
      front + row
  }

  /**
   * A pool as the pass keeps it: no cell twice, and every listed cell on the
   * map and still a biome a village may replace.
   */
  predicate PoolOk(g: BiomeMap, v: Variant, pool: seq<Pos>) {
    && NoDup(pool)
    && forall i :: 0 <= i < |pool| ==>
         InBounds(g, pool[i].x, pool[i].y) && g[pool[i].y][pool[i].x] in Eligible(v)
  }

  lemma {:induction false} RowCandidatesComplete(g: BiomeMap, v: Variant, y: nat, n: nat, x: nat)
    requires y < |g| && x < n <= |g[y]| && g[y][x] in Eligible(v)
    ensures Pos(x, y) in RowCandidates(g, v, y, n)
  {
    if x < n - 1 {
      RowCandidatesComplete(g, v, y, n - 1, x);
    }
  }

  /** Every candidate cell of the first k rows is in the pool. */
  lemma {:induction false} CandidatesComplete(g: BiomeMap, v: Variant, k: nat, x: nat, y: nat)
    requires y < k <= |g| && x < |g[y]| && g[y][x] in Eligible(v)
    ensures Pos(x, y) in Candidates(g, v, k)
  {
    if y < k - 1 {
      CandidatesComplete(g, v, k - 1, x, y);
    } else {
      RowCandidatesComplete(g, v, y, |g[y]|, x);
    }
  }

  /** The two scanning loops: `possibleVillageCells`, or `plainsCells` in the older pass. */
  method CollectCandidates(g: BiomeMap, size: nat, v: Variant) returns (pool: seq<Pos>)
    requires IsGrid(g, size, size)
    ensures pool == Candidates(g, v, size)
  {
    pool := [];
    var y := 0;
    while y < size
      invariant 0 <= y <= size
      invariant pool == Candidates(g, v, y)
    {
      var x := 0;
      while x < size
        invariant 0 <= x <= size
        invariant pool == Candidates(g, v, y) + RowCandidates(g, v, y, x)
      {
        if g[y][x] == Plains || (v == Modern && g[y][x] == Desert) {
          pool := pool + [Pos(x, y)];
        }
        x := x + 1;
      }
      y := y + 1;
    }
  }

  /** `splice(k, 1)`: the list without its entry k. */
  function Splice(s: seq<Pos>, k: nat): seq<Pos>
    requires k < |s|
  {
    s[..k] + s[k + 1..]
  }

  /** Removing an entry keeps a pool valid, and the removed cell is no longer listed. */
  lemma SplicePool(g: BiomeMap, v: Variant, pool: seq<Pos>, k: nat)
    requires PoolOk(g, v, pool) && k < |pool|
    ensures PoolOk(g, v, Splice(pool, k)) && pool[k] !in Splice(pool, k)
  {
    var r := Splice(pool, k);
    assert forall i :: 0 <= i < |r| ==> r[i] == pool[if i < k then i else i + 1];
  }

  /**
   * `findIndex((cell) => cell.x === x && cell.y === y)`: the first entry at
   * (x, y), or -1 when none is.
   */
  method FindIndex(pool: seq<Pos>, x: int, y: int) returns (k: int)
    ensures -1 <= k < |pool|
    ensures k == -1 <==> Pos(x, y) !in pool
    ensures k >= 0 ==> pool[k] == Pos(x, y) && Pos(x, y) !in pool[..k]
  {
    k := 0;
    while k < |pool| && !(pool[k].x == x && pool[k].y == y)
      invariant 0 <= k <= |pool|
      invariant Pos(x, y) !in pool[..k]
    {
      assert pool[..k + 1] == pool[..k] + [pool[k]];
      k := k + 1;
    }
    if k == |pool| {
      assert pool[..k] == pool;
      k := -1;
    }
  }

  /** Writing a village into a cell the pool does not list keeps the pool valid. */
  lemma SettleKeepsPool(g: BiomeMap, v: Variant, pool: seq<Pos>, x: int, y: int)
    requires PoolOk(g, v, pool) && InBounds(g, x, y) && Pos(x, y) !in pool
    ensures PoolOk(SetCell(g, x, y, Village), v, pool)
  {
    forall i | 0 <= i < |pool|
      ensures pool[i].x != x || pool[i].y != y
    {
      assert pool[i] != Pos(x, y);
    }
  }

  /** An order of the pool's cells is a valid pool too. */
  lemma PermutedPool(g: BiomeMap, v: Variant, pool: seq<Pos>, order: seq<Pos>)
    requires PoolOk(g, v, pool) && multiset(order) == multiset(pool)
    ensures PoolOk(g, v, order)
  {
    NoDupPerm(order, pool);
    forall i | 0 <= i < |order|
      ensures InBounds(g, order[i].x, order[i].y) && g[order[i].y][order[i].x] in Eligible(v)
    {
      assert order[i] in multiset(pool);
      var j :| 0 <= j < |pool| && pool[j] == order[i];
    }
  }

  /** Every candidate cell of g is still in the pool or is one of the refused seeds. */
  predicate Covered(g: BiomeMap, v: Variant, pool: seq<Pos>, refused: set<Pos>) {
    forall y, x :: 0 <= y < |g| && 0 <= x < |g[y]| && g[y][x] in Eligible(v) ==> Pos(x, y) in pool || Pos(x, y) in refused
  }

  /** The pool lists every candidate cell of the map it was collected from. */
  lemma CandidatesCovered(g: BiomeMap, v: Variant, size: nat)
    requires IsGrid(g, size, size)
    ensures Covered(g, v, Candidates(g, v, size), {})
  {
    forall y, x | 0 <= y < |g| && 0 <= x < |g[y]| && g[y][x] in Eligible(v)
      ensures Pos(x, y) in Candidates(g, v, size)
    {
      CandidatesComplete(g, v, size, x, y);
    }
  }

  /** Only the struck entry leaves the pool. */
  lemma SpliceKeeps(pool: seq<Pos>, k: nat, p: Pos)
    requires k < |pool| && p in pool && p != pool[k]
    ensures p in Splice(pool, k)
  {
    var i :| 0 <= i < |pool| && pool[i] == p;
    if i < k {
      assert Splice(pool, k)[i] == p;
    } else {
      assert Splice(pool, k)[i - 1] == p;
    }
  }

  /** A village written into (x, y), listed at k if anywhere, leaves every other candidate covered. */
  lemma JoinCovered(g: BiomeMap, v: Variant, pool: seq<Pos>, refused: set<Pos>, x: int, y: int, k: int)
    requires Covered(g, v, pool, refused) && InBounds(g, x, y)
    requires -1 <= k < |pool| && (k >= 0 ==> pool[k] == Pos(x, y))
    ensures Covered(SetCell(g, x, y, Village), v, if k == -1 then pool else Splice(pool, k), refused)
  {
    var h := SetCell(g, x, y, Village);
    forall j, i | 0 <= j < |h| && 0 <= i < |h[j]| && h[j][i] in Eligible(v)
      ensures Pos(i, j) in (if k == -1 then pool else Splice(pool, k)) || Pos(i, j) in refused
    {
      assert (j, i) != (y, x) && h[j][i] == g[j][i];
      if k >= 0 && Pos(i, j) in pool && Pos(i, j) !in refused {
        SpliceKeeps(pool, k, Pos(i, j));
      }
    }
  }

  /** A refused seed struck from the pool joins the refused ones. */
  lemma RefuseCovered(g: BiomeMap, v: Variant, pool: seq<Pos>, refused: set<Pos>, k: nat)
    requires Covered(g, v, pool, refused) && k < |pool|
    ensures Covered(g, v, Splice(pool, k), refused + {pool[k]})
  {
    forall j, i | 0 <= j < |g| && 0 <= i < |g[j]| && g[j][i] in Eligible(v) && Pos(i, j) != pool[k] && Pos(i, j) !in refused
      ensures Pos(i, j) in Splice(pool, k)
    {
      SpliceKeeps(pool, k, Pos(i, j));
    }
  }

  /** An order of the pool covers what the pool covers. */
  lemma PermutedCovered(g: BiomeMap, v: Variant, pool: seq<Pos>, order: seq<Pos>, refused: set<Pos>)
    requires Covered(g, v, pool, refused) && multiset(order) == multiset(pool)
    ensures Covered(g, v, order, refused)
  {
    forall j, i | 0 <= j < |g| && 0 <= i < |g[j]| && g[j][i] in Eligible(v) && Pos(i, j) in pool
      ensures Pos(i, j) in order
    {
      assert Pos(i, j) in multiset(pool);
    }
  }

  // ---------------------------------------------------------------------------
  // What the pass has written so far

  /**
   * From g0 to g only candidate cells changed, each to Village, and the map
   * has n villages more.
   */
  predicate Settled(g0: BiomeMap, g: BiomeMap, v: Variant, n: int)
    ensures Settled(g0, g, v, n) ==> n >= 0
  {
    VillagesOnlyAdded(g0, g, v);
    ChangesOnly(g0, g, Eligible(v), Village) && Count(g, Village) == Count(g0, Village) + n
  }

  /** Turning candidate cells into villages removes no village. */
  lemma VillagesOnlyAdded(g0: BiomeMap, g: BiomeMap, v: Variant)
    ensures ChangesOnly(g0, g, Eligible(v), Village) ==> Count(g, Village) >= Count(g0, Village)
  {
    if ChangesOnly(g0, g, Eligible(v), Village) {
      ChangesOnlyKeepsTarget(g0, g, Eligible(v), Village);
    }
  }

  /** Villages are never placed on the ocean: the ocean keeps its cells. */
  lemma SettledKeepsOcean(g0: BiomeMap, g: BiomeMap, v: Variant, n: int)
    requires Settled(g0, g, v, n)
    ensures Count(g, Ocean) == Count(g0, Ocean)
  {
    ChangesOnlyKeepsOther(g0, g, Eligible(v), Village, Ocean);
  }

  lemma SettledRefl(g: BiomeMap, v: Variant)
    ensures Settled(g, g, v, 0)
  {
    ChangesOnlyRefl(g, Eligible(v), Village);
  }

  /** Writing a village into a candidate cell adds one village. */
  lemma SettleStep(g0: BiomeMap, g: BiomeMap, v: Variant, n: int, x: int, y: int)
    requires Settled(g0, g, v, n) && InBounds(g, x, y) && g[y][x] in Eligible(v)
    ensures Settled(g0, SetCell(g, x, y, Village), v, n + 1)
  {
    CountUpdate(g, x, y, Village, Village);
    SetCellChangesOnly(g, x, y, Eligible(v), Village);
    ChangesOnlyTrans(g0, g, SetCell(g, x, y, Village), Eligible(v), Village);
  }

  /** Two stretches of the pass add up. */
  lemma SettledTrans(g0: BiomeMap, g1: BiomeMap, g2: BiomeMap, v: Variant, m: int, n: int)
    requires Settled(g0, g1, v, m) && Settled(g1, g2, v, n)
    ensures Settled(g0, g2, v, m + n)
  {
    ChangesOnlyTrans(g0, g1, g2, Eligible(v), Village);
  }

  /** A pass that only changed candidate cells keeps the map's shape. */
  lemma SettledShape(g0: BiomeMap, g: BiomeMap, v: Variant, n: int, size: nat)
    requires IsGrid(g0, size, size) && Settled(g0, g, v, n)
    ensures IsGrid(g, size, size)
  {
  }

  // ---------------------------------------------------------------------------
  // Counts and the seed test

  /** `Math.floor(this.size * this.size * villageRatio)`. */
  function TargetVillages(size: nat, villageRatio: real): (t: int)
    ensures 0.0 <= villageRatio ==> 0 <= t
    ensures villageRatio <= 1.0 ==> t <= size * size
  {
    RatioOfCells(size * size, villageRatio);
    ((size * size) as real * villageRatio).Floor
  }

  /** A share of at most all n cells is at most n cells. */
  lemma RatioOfCells(n: nat, ratio: real)
    ensures 0.0 <= ratio ==> 0 <= (n as real * ratio).Floor
    ensures ratio <= 1.0 ==> (n as real * ratio).Floor <= n
  {
    var m := n as real * ratio;
    if 0.0 <= ratio {
      assert 0.0 <= m;
    }
    if ratio <= 1.0 {
      assert n as real * (1.0 - ratio) >= 0.0;
      assert m <= n as real;
    }
  }

  /** `Math.max(1, Math.min(3, Math.ceil(villageRatio * 20)))`. */
  function NumClusters(villageRatio: real): (n: int)
    ensures 1 <= n <= 3
  {
    Max(1, Min(3, Ceil(villageRatio * 20.0)))
  }

  /** One cluster for each started 5% of villages, and never more than three. */
  lemma NumClustersBands(villageRatio: real)
    ensures villageRatio <= 0.05 ==> NumClusters(villageRatio) == 1
    ensures 0.05 < villageRatio <= 0.1 ==> NumClusters(villageRatio) == 2
    ensures 0.1 < villageRatio ==> NumClusters(villageRatio) == 3
  {
    var c := Ceil(villageRatio * 20.0);
    assert (c - 1) as real < villageRatio * 20.0 <= c as real;
  }

  /**
   * `Math.ceil(targetVillageCells / numClusters)`: the least size for which
   * the clusters together reach the overall target.
   */
  function ClusterTarget(target: int, numClusters: int): (c: int)
    requires numClusters >= 1
    ensures numClusters * c >= target
    ensures numClusters * (c - 1) < target
    ensures target >= 1 ==> c >= 1
  {
    CeilQuotientCovers(target, numClusters);
    Ceil(target as real / numClusters as real)
  }

  /** Rounding the quotient up gives the least multiplier of numClusters that reaches target. */
  lemma CeilQuotientCovers(target: int, numClusters: int)
    requires numClusters >= 1
    ensures var c := Ceil(target as real / numClusters as real);
      numClusters * c >= target && numClusters * (c - 1) < target && (target >= 1 ==> c >= 1)
  {
    var n := numClusters as real;
    var c, q := Ceil(target as real / n), target as real / n;
    assert q * n == target as real;
    ScaleLess((c - 1) as real, q, n);
    assert (c - 1) as real * n < target as real;
    ScaleAtMost(q, c as real, n);
    assert (numClusters * c) as real == c as real * n;
    assert (numClusters * (c - 1)) as real == (c - 1) as real * n;
  }

  lemma ScaleLess(a: real, b: real, k: real)
    requires k > 0.0 && a < b
    ensures a * k < b * k
  {
    assert (b - a) * k > 0.0;
  }

  lemma ScaleAtMost(a: real, b: real, k: real)
    requires k > 0.0 && a <= b
    ensures a * k <= b * k
  {
    assert (b - a) * k >= 0.0;
  }

  /** `const villageSize = 3`: the reach of the seed test. */
  const VILLAGE_SIZE: int := 3

  /** No in-bounds ocean cell at rows [ylo, yhi) and columns [xlo, xhi). */
  predicate Clear(g: BiomeMap, size: nat, ylo: int, yhi: int, xlo: int, xhi: int)
    requires IsGrid(g, size, size)
  {
    forall ny, nx :: ylo <= ny < yhi && xlo <= nx < xhi && 0 <= ny < size && 0 <= nx < size ==> g[ny][nx] != Ocean
  }

  /** No ocean within Chebyshev distance `villageSize` of p: enough space for a village. */
  predicate RoomAround(g: BiomeMap, size: nat, p: Pos)
    requires IsGrid(g, size, size)
  {
    Clear(g, size, p.y - VILLAGE_SIZE, p.y + VILLAGE_SIZE + 1, p.x - VILLAGE_SIZE, p.x + VILLAGE_SIZE + 1)
  }

  /** The `hasEnoughSpace` loops, which stop at the first ocean cell. */
  method HasEnoughSpace(g: BiomeMap, size: nat, seed: Pos) returns (hasEnoughSpace: bool)
    requires IsGrid(g, size, size)
    ensures hasEnoughSpace == RoomAround(g, size, seed)
  {
    hasEnoughSpace := true;
    var dy := -VILLAGE_SIZE;
    while dy <= VILLAGE_SIZE && hasEnoughSpace
      invariant -VILLAGE_SIZE <= dy <= VILLAGE_SIZE + 1
      invariant hasEnoughSpace ==>
        Clear(g, size, seed.y - VILLAGE_SIZE, seed.y + dy, seed.x - VILLAGE_SIZE, seed.x + VILLAGE_SIZE + 1)
      invariant !hasEnoughSpace ==> !RoomAround(g, size, seed)
    {
      var dx := -VILLAGE_SIZE;
      while dx <= VILLAGE_SIZE && hasEnoughSpace
        invariant -VILLAGE_SIZE <= dx <= VILLAGE_SIZE + 1
        invariant hasEnoughSpace ==>
          Clear(g, size, seed.y - VILLAGE_SIZE, seed.y + dy, seed.x - VILLAGE_SIZE, seed.x + VILLAGE_SIZE + 1)
          && Clear(g, size, seed.y + dy, seed.y + dy + 1, seed.x - VILLAGE_SIZE, seed.x + dx)
        invariant !hasEnoughSpace ==> !RoomAround(g, size, seed)
      {
        var nx, ny := seed.x + dx, seed.y + dy;
        if nx >= 0 && nx < size && ny >= 0 && ny < size {
          if g[ny][nx] == Ocean {
            hasEnoughSpace := false;
          }
        }
        dx := dx + 1;
      }
      dy := dy + 1;
    }
  }

  // ---------------------------------------------------------------------------
  // Directions

  /** A `[dx, dy]` entry of `directions`. */
  datatype Offset = Offset(dx: int, dy: int)

  /** The `directions` literal, in the source's order. */
  function Directions(v: Variant): seq<Offset> {
    match v
    case Modern =>
      [Offset(-1, -1), Offset(-1, 0), Offset(-1, 1), Offset(0, -1), Offset(0, 1), Offset(1, -1), Offset(1, 0), Offset(1, 1)]
    case Legacy =>
      [Offset(-1, 0), Offset(1, 0), Offset(0, -1), Offset(0, 1)]
  }

  /** b is one step of v's growth away from a. */
  predicate Adjacent(v: Variant, a: Pos, b: Pos) {
    Offset(b.x - a.x, b.y - a.y) in Directions(v)
  }

  /**
   * The eight directions are the cells touching a side or a corner, the four
   * the cells sharing a side: growth is 8-connected in the .ts pass and
   * 4-connected in the .js one.
   */
  lemma DirectionsAreNeighbours(v: Variant, o: Offset)
    ensures v == Modern ==> (o in Directions(v) <==> Max(Abs(o.dx), Abs(o.dy)) == 1)
    ensures v == Legacy ==> (o in Directions(v) <==> Abs(o.dx) + Abs(o.dy) == 1)
  {
    if Max(Abs(o.dx), Abs(o.dy)) == 1 || Abs(o.dx) + Abs(o.dy) == 1 {
      assert -1 <= o.dx <= 1 && -1 <= o.dy <= 1;
      assert o == Offset(o.dx, o.dy);
    }
  }

  /**
   * The swaps of the Fisher–Yates loop `for (let i = length - 1; i > 0; i--)`
   * from index i down, from state s: each draws `j = floor(next() * (i + 1))`
   * and swaps entries i and j.
   */
  function Swaps(a: seq<Offset>, i: nat, s: State): (r: seq<Offset>)
    requires i < |a|
    ensures |r| == |a|
    decreases i
  {
    if i == 0 then a
    else
      var t := NextState(s);
      var j := ScaledDraw(t, i + 1);
      Swaps(a[i := a[j]][j := a[i]], i - 1, t)
  }

  lemma SwapPermutes(a: seq<Offset>, i: nat, j: nat)
    requires i < |a| && j < |a|
    ensures multiset(a[i := a[j]][j := a[i]]) == multiset(a)
  {
  }

  /** The shuffle only reorders its list: the same entries, each as often. */
  lemma {:induction false} SwapsPermute(a: seq<Offset>, i: nat, s: State)
    requires i < |a|
    ensures multiset(Swaps(a, i, s)) == multiset(a)
    ensures forall k :: 0 <= k < |a| ==> Swaps(a, i, s)[k] in a
    decreases i
  {
    if i > 0 {
      var t := NextState(s);
      var j := ScaledDraw(t, i + 1);
      SwapPermutes(a, i, j);
      SwapsPermute(a[i := a[j]][j := a[i]], i - 1, t);
    }
    var d := Swaps(a, i, s);
    forall k | 0 <= k < |a|
      ensures d[k] in a
    {
      assert d[k] in multiset(a);
    }
  }

  /** One Fisher–Yates step: a draw j in [0, i] and the entries at i and j swapped. */
  method SwapStep(directions: array<Offset>, i: nat, rng: Rng)
    requires 0 < i < directions.Length
    modifies directions, rng
    ensures rng.seed == NextState(old(rng.seed))
    ensures var j := ScaledDraw(rng.seed, i + 1);
      directions[..] == old(directions[..])[i := old(directions[j])][j := old(directions[i])]
  {
    var j := rng.NextScaled(i + 1);
    directions[i], directions[j] := directions[j], directions[i];
  }

  /** The Fisher–Yates loop on the array in place: `length - 1` draws. */
  method ShuffleInPlace(directions: array<Offset>, rng: Rng)
    requires directions.Length > 0
    modifies directions, rng
    ensures directions[..] == Swaps(old(directions[..]), directions.Length - 1, old(rng.seed))
    ensures rng.seed == Advance(old(rng.seed), directions.Length - 1)
  {
    ghost var s0, a0 := rng.seed, directions[..];
    var i := directions.Length - 1;
    while i > 0
      invariant 0 <= i < directions.Length
      invariant Swaps(a0, |a0| - 1, s0) == Swaps(directions[..], i, rng.seed)
      invariant rng.seed == Advance(s0, |a0| - 1 - i)
    {
      SwapStep(directions, i, rng);
      i := i - 1;
    }
  }

  /** The `directions` literal and its shuffle (7 draws in the .ts pass, 3 in the .js one). */
  method ShuffleDirections(v: Variant, rng: Rng) returns (dirs: seq<Offset>)
    modifies rng
    ensures dirs == Swaps(Directions(v), |Directions(v)| - 1, old(rng.seed))
    ensures rng.seed == Advance(old(rng.seed), |Directions(v)| - 1)
    ensures forall i :: 0 <= i < |dirs| ==> dirs[i] in Directions(v)
  {
    ghost var s := rng.seed;
    var ds := Directions(v);
    var directions := new Offset[|ds|](k requires 0 <= k < |ds| => ds[k]);
    assert directions[..] == ds;
    ShuffleInPlace(directions, rng);
    dirs := directions[..];
    SwapsPermute(ds, |ds| - 1, s);
  }

  /** `0.9 - distanceFromSeed / (this.size * 0.1)`, or `0.95 - distanceFromSeed / (this.size * 0.05)`. */
  function GrowthProbability(v: Variant, size: nat, dist: real): (p: real)
    requires size > 0
    ensures dist == 0.0 ==> p == (if v == Modern then 0.9 else 0.95)
    ensures dist >= 0.0 ==> p <= (if v == Modern then 0.9 else 0.95)
  {
    match v
    case Modern => 0.9 - dist / (size as real * 0.1)
    case Legacy => 0.95 - dist / (size as real * 0.05)
  }

  /** Cells nearer the seed grow at least as likely: the clusters stay compact. */
  lemma GrowthFavoursNear(v: Variant, size: nat, d1: real, d2: real)
    requires size > 0 && d1 <= d2
    ensures GrowthProbability(v, size, d2) <= GrowthProbability(v, size, d1)
  {
    var w := if v == Modern then size as real * 0.1 else size as real * 0.05;
    assert d2 / w - d1 / w == (d2 - d1) / w;
  }

  // ---------------------------------------------------------------------------
  // Growing one cluster

  /** Every listed cell holds a village. */
  predicate AllVillage(g: BiomeMap, cells: seq<Pos>) {
    forall k :: 0 <= k < |cells| ==> InBounds(g, cells[k].x, cells[k].y) && g[cells[k].y][cells[k].x] == Village
  }

  /** Cell k of the cluster touches an earlier one. */
  predicate TouchesEarlier(v: Variant, cells: seq<Pos>, k: int)
    requires 0 <= k < |cells|
  {
    exists j :: 0 <= j < k && Adjacent(v, cells[j], cells[k])
  }

  /** Each cell after the first touches an earlier one: the cluster is connected. */
  predicate Connected(v: Variant, cells: seq<Pos>) {
    forall k :: 1 <= k < |cells| ==> TouchesEarlier(v, cells, k)
  }

  /** The cluster in the order its cells joined, `parents[k]` the earlier cell that cell k grew from. */
  ghost predicate Grown(v: Variant, cells: seq<Pos>, parents: seq<nat>) {
    |parents| == |cells| && forall k :: 1 <= k < |cells| ==> parents[k] < k && Adjacent(v, cells[parents[k]], cells[k])
  }

  lemma GrownConnected(v: Variant, cells: seq<Pos>, parents: seq<nat>)
    requires Grown(v, cells, parents)
    ensures Connected(v, cells)
  {
    forall k | 1 <= k < |cells|
      ensures TouchesEarlier(v, cells, k)
    {
      var j := parents[k];
      assert 0 <= j < k && Adjacent(v, cells[j], cells[k]);
    }
  }

  /** The state the growth loop keeps: g0 is the map with the seed written. */
  ghost predicate Growing(g0: BiomeMap, g: BiomeMap, v: Variant, size: nat, pool: seq<Pos>, refused: set<Pos>,
                          cells: seq<Pos>, parents: seq<nat>) {
    && IsGrid(g, size, size)
    && |cells| >= 1
    && Settled(g0, g, v, |cells| - 1)
    && PoolOk(g, v, pool)
    && Covered(g, v, pool, refused)
    && AllVillage(g, cells)
    && Grown(v, cells, parents)
  }

  /** The pool once cell (x, y) holds a village and, when it was listed at k, is struck from it. */
  lemma JoinPool(g: BiomeMap, v: Variant, pool: seq<Pos>, x: int, y: int, k: int)
    requires PoolOk(g, v, pool) && InBounds(g, x, y)
    requires -1 <= k < |pool| && (k == -1 <==> Pos(x, y) !in pool) && (k >= 0 ==> pool[k] == Pos(x, y))
    ensures PoolOk(SetCell(g, x, y, Village), v, if k == -1 then pool else Splice(pool, k))
  {
    if k == -1 {
      SettleKeepsPool(g, v, pool, x, y);
    } else {
      SplicePool(g, v, pool, k);
      SettleKeepsPool(g, v, Splice(pool, k), x, y);
    }
  }

  /** The cluster with (x, y), grown from its cell h, appended. */
  lemma JoinCells(g: BiomeMap, v: Variant, cells: seq<Pos>, parents: seq<nat>, h: nat, x: int, y: int)
    requires AllVillage(g, cells) && Grown(v, cells, parents) && h < |cells|
    requires InBounds(g, x, y) && Adjacent(v, cells[h], Pos(x, y))
    ensures AllVillage(SetCell(g, x, y, Village), cells + [Pos(x, y)])
    ensures Grown(v, cells + [Pos(x, y)], parents + [h])
  {
    var c, ps := cells + [Pos(x, y)], parents + [h];
    assert forall j :: 0 <= j < |cells| ==> c[j] == cells[j] && ps[j] == parents[j];
  }

  /** One cell grown from cell h of the cluster and struck from the pool keeps the loop's state. */
  lemma GrowStep(g0: BiomeMap, g: BiomeMap, v: Variant, size: nat, pool: seq<Pos>, refused: set<Pos>,
                 cells: seq<Pos>, parents: seq<nat>, h: nat, x: int, y: int, k: int)
    requires Growing(g0, g, v, size, pool, refused, cells, parents) && h < |cells|
    requires InBounds(g, x, y) && g[y][x] in Eligible(v) && Adjacent(v, cells[h], Pos(x, y))
    requires -1 <= k < |pool| && (k == -1 <==> Pos(x, y) !in pool) && (k >= 0 ==> pool[k] == Pos(x, y))
    ensures Growing(g0, SetCell(g, x, y, Village), v, size, if k == -1 then pool else Splice(pool, k), refused,
                    cells + [Pos(x, y)], parents + [h])
  {
    SettleStep(g0, g, v, |cells| - 1, x, y);
    JoinPool(g, v, pool, x, y, k);
    JoinCovered(g, v, pool, refused, x, y, k);
    JoinCells(g, v, cells, parents, h, x, y);
  }

  /** `queue.push(c)` alongside `villageCells.push(c)`: the queue stays the tail of the cluster. */
  lemma QueuePush(cells: seq<Pos>, queue: seq<Pos>, head: nat, c: Pos)
    requires head <= |cells| && queue == cells[head..]
    ensures queue + [c] == (cells + [c])[head..]
  {
  }

  /** `queue.shift()` takes the cluster's cell `head`. */
  lemma QueueShift(cells: seq<Pos>, queue: seq<Pos>, head: nat)
    requires head <= |cells| && queue == cells[head..] && |queue| > 0
    ensures queue[0] == cells[head] && queue[1..] == cells[head + 1..]
  {
  }

  /**
   * The body of `if (this.rng.next() < growthProbability)`: cell (x, y),
   * next to cluster cell h, becomes a village, joins the cluster and the
   * queue, and leaves the pool.
   */
  method Join(mapData: MapData, v: Variant, size: nat, ghost h: nat, ghost d: Offset, x: int, y: int,
              pool0: seq<Pos>, queue0: seq<Pos>, cells0: seq<Pos>, ghost g0: BiomeMap, ghost refused: set<Pos>,
              ghost parents0: seq<nat>)
    returns (pool: seq<Pos>, queue: seq<Pos>, villageCells: seq<Pos>, ghost parents: seq<nat>)
    requires Growing(g0, mapData.cells, v, size, pool0, refused, cells0, parents0)
    requires h < |cells0| && queue0 == cells0[h + 1..]
    requires d in Directions(v) && x == cells0[h].x + d.dx && y == cells0[h].y + d.dy
    requires 0 <= x < size && 0 <= y < size
    requires mapData.cells[y][x] == Plains || (v == Modern && mapData.cells[y][x] == Desert)
    modifies mapData
    ensures Growing(g0, mapData.cells, v, size, pool, refused, villageCells, parents)
    ensures villageCells == cells0 + [Pos(x, y)] && queue == villageCells[h + 1..]
  {
    ghost var g := mapData.cells;
    assert d == Offset(x - cells0[h].x, y - cells0[h].y);
    mapData.Settle(x, y);
    villageCells := cells0 + [Pos(x, y)];
    queue := queue0 + [Pos(x, y)];
    QueuePush(cells0, queue0, h + 1, Pos(x, y));
    var cellIndex := FindIndex(pool0, x, y);
    pool := pool0;
    if cellIndex != -1 {
      pool := Splice(pool0, cellIndex);
    }
    GrowStep(g0, g, v, size, pool0, refused, cells0, parents0, h, x, y, cellIndex);
    parents := parents0 + [h];
  }

  /**
   * The `for (const [dx, dy] of directions)` loop for the dequeued cell
   * `current` (cell h of the cluster): each in-bounds candidate neighbour
   * draws once and joins the cluster when the draw is under the growth
   * probability; the loop stops once the target or the cluster's size is
   * reached.
   */
  method GrowFrom(mapData: MapData, v: Variant, lib: MathLib, size: nat, seed: Pos, ghost h: nat, current: Pos, dirs: seq<Offset>,
                  pool0: seq<Pos>, queue0: seq<Pos>, cells0: seq<Pos>, placed0: int, target: int, clusterTarget: int,
                  rng: Rng, ghost g0: BiomeMap, ghost refused: set<Pos>, ghost parents0: seq<nat>)
    returns (pool: seq<Pos>, queue: seq<Pos>, villageCells: seq<Pos>, placed: int, ghost parents: seq<nat>)
    requires Growing(g0, mapData.cells, v, size, pool0, refused, cells0, parents0)
    requires h < |cells0| && current == cells0[h] && queue0 == cells0[h + 1..]
    requires forall i :: 0 <= i < |dirs| ==> dirs[i] in Directions(v)
    requires placed0 < target && |cells0| < clusterTarget
    modifies mapData, rng
    ensures Growing(g0, mapData.cells, v, size, pool, refused, villageCells, parents)
    ensures |cells0| <= |villageCells| && villageCells[0] == cells0[0] && queue == villageCells[h + 1..]
    ensures placed - placed0 == |villageCells| - |cells0|
    ensures placed <= target && |villageCells| <= clusterTarget
  {
    pool, queue, villageCells, placed, parents := pool0, queue0, cells0, placed0, parents0;
    var i := 0;
    while i < |dirs|
      invariant 0 <= i <= |dirs|
      invariant Growing(g0, mapData.cells, v, size, pool, refused, villageCells, parents)
      invariant |cells0| <= |villageCells| && villageCells[0] == cells0[0] && villageCells[h] == current
      invariant queue == villageCells[h + 1..]
      invariant placed - placed0 == |villageCells| - |cells0|
      invariant placed < target && |villageCells| < clusterTarget
    {
      var d := dirs[i];
      var nx, ny := current.x + d.dx, current.y + d.dy;
      if nx >= 0 && nx < size && ny >= 0 && ny < size
         && (mapData.cells[ny][nx] == Plains || (v == Modern && mapData.cells[ny][nx] == Desert))
      {
        var distanceFromSeed := lib.sqrt(((nx - seed.x) * (nx - seed.x) + (ny - seed.y) * (ny - seed.y)) as real);
        var growthProbability := GrowthProbability(v, size, distanceFromSeed);
        var r := rng.Next();
        if r < growthProbability {
          pool, queue, villageCells, parents := Join(mapData, v, size, h, d, nx, ny, pool, queue, villageCells, g0, refused, parents);
          placed := placed + 1;
          if placed >= target || |villageCells| >= clusterTarget {
            break;
          }
        }
      }
      i := i + 1;
    }
  }
  /**
   * The breadth-first growth from a seed already written: `queue.shift()`,
   * shuffle the directions, try the neighbours, while the queue is not empty
   * and neither the target nor `targetClusterSize` is reached.
   */
  method GrowCluster(mapData: MapData, v: Variant, lib: MathLib, size: nat, seed: Pos, pool0: seq<Pos>,
                     placed0: int, target: int, clusterTarget: int, rng: Rng, ghost refused: set<Pos>)
    returns (pool: seq<Pos>, placed: int, villageCells: seq<Pos>)
    requires IsGrid(mapData.cells, size, size) && InBounds(mapData.cells, seed.x, seed.y) && mapData.cells[seed.y][seed.x] == Village
    requires PoolOk(mapData.cells, v, pool0) && Covered(mapData.cells, v, pool0, refused)
    requires placed0 <= target && clusterTarget >= 1
    modifies mapData, rng
    ensures IsGrid(mapData.cells, size, size) && Settled(old(mapData.cells), mapData.cells, v, placed - placed0)
    ensures PoolOk(mapData.cells, v, pool) && Covered(mapData.cells, v, pool, refused)
    ensures |villageCells| >= 1 && villageCells[0] == seed && placed - placed0 == |villageCells| - 1
    ensures placed <= target && |villageCells| <= clusterTarget
    ensures AllVillage(mapData.cells, villageCells) && Connected(v, villageCells)
  {
    ghost var g0 := mapData.cells;
    ghost var parents: seq<nat> := [0];
    ghost var head: nat := 0;
    SettledRefl(g0, v);
    pool, placed := pool0, placed0;
    var queue := [seed];
    villageCells := [seed];
    while |queue| > 0 && placed < target && |villageCells| < clusterTarget
      invariant Growing(g0, mapData.cells, v, size, pool, refused, villageCells, parents)
      invariant head <= |villageCells| && queue == villageCells[head..]
      invariant villageCells[0] == seed && placed - placed0 == |villageCells| - 1
      invariant placed <= target && |villageCells| <= clusterTarget
      decreases target - placed, |queue|
    {
      QueueShift(villageCells, queue, head);
      var current := queue[0];
      queue := queue[1..];
      var dirs := ShuffleDirections(v, rng);
      pool, queue, villageCells, placed, parents :=
        GrowFrom(mapData, v, lib, size, seed, head, current, dirs, pool, queue, villageCells, placed, target, clusterTarget,
                 rng, g0, refused, parents);
      head := head + 1;
    }
    GrownConnected(v, villageCells, parents);
  }

  // ---------------------------------------------------------------------------
  // The cluster loop, the fallback and the pass

  /** Writing villages into candidate cells leaves every ocean cell, so the seed test, as it was. */
  lemma SettledKeepsRoom(g0: BiomeMap, g: BiomeMap, v: Variant, n: int, size: nat, p: Pos)
    requires IsGrid(g0, size, size) && Settled(g0, g, v, n)
    ensures IsGrid(g, size, size) && (RoomAround(g, size, p) <==> RoomAround(g0, size, p))
  {
    assert forall y, x :: 0 <= y < size && 0 <= x < size ==> (g[y][x] == Ocean <==> g0[y][x] == Ocean);
  }

  /** Villages once written stay. */
  lemma SettledKeepsVillages(g0: BiomeMap, g: BiomeMap, v: Variant, n: int, cells: seq<Pos>)
    requires Settled(g0, g, v, n) && AllVillage(g0, cells)
    ensures AllVillage(g, cells)
  {
    forall k | 0 <= k < |cells|
      ensures InBounds(g, cells[k].x, cells[k].y) && g[cells[k].y][cells[k].x] == Village
    {
      assert InBounds(g0, cells[k].x, cells[k].y);
    }
  }

  /**
   * The seed test: enough space around the seed in MapGenerator.ts,
   * `map[seed.y][seed.x] === BIOMES.PLAINS` in MapGenerator.js, which a seed
   * drawn from the pool always passes.
   */
  method SeedAccepted(g: BiomeMap, v: Variant, size: nat, seed: Pos) returns (accepted: bool)
    requires IsGrid(g, size, size) && InBounds(g, seed.x, seed.y) && g[seed.y][seed.x] in Eligible(v)
    ensures accepted <==> v == Legacy || RoomAround(g, size, seed)
  {
    if v == Modern {
      accepted := HasEnoughSpace(g, size, seed);
    } else {
      accepted := g[seed.y][seed.x] == Plains;
    }
  }

  /** A refused seed: struck from the pool, the map as it was. */
  lemma RefuseStep(g: BiomeMap, v: Variant, pool: seq<Pos>, refused: set<Pos>, k: nat)
    requires PoolOk(g, v, pool) && Covered(g, v, pool, refused) && k < |pool|
    ensures PoolOk(g, v, Splice(pool, k)) && Covered(g, v, Splice(pool, k), refused + {pool[k]})
    ensures Settled(g, g, v, 0)
  {
    SplicePool(g, v, pool, k);
    RefuseCovered(g, v, pool, refused, k);
    SettledRefl(g, v);
  }

  /** An accepted seed: written as a village and struck from the pool. */
  lemma SeedStep(g: BiomeMap, v: Variant, size: nat, pool: seq<Pos>, refused: set<Pos>, k: nat)
    requires IsGrid(g, size, size) && PoolOk(g, v, pool) && Covered(g, v, pool, refused) && k < |pool|
    ensures InBounds(g, pool[k].x, pool[k].y) && g[pool[k].y][pool[k].x] in Eligible(v)
    ensures var h := SetCell(g, pool[k].x, pool[k].y, Village);
      && IsGrid(h, size, size) && Settled(g, h, v, 1)
      && PoolOk(h, v, Splice(pool, k)) && Covered(h, v, Splice(pool, k), refused)
  {
    var p := pool[k];
    SplicePool(g, v, pool, k);
    SettledRefl(g, v);
    SettleStep(g, g, v, 0, p.x, p.y);
    SettleKeepsPool(g, v, Splice(pool, k), p.x, p.y);
    JoinCovered(g, v, pool, refused, p.x, p.y, k);
  }

  /**
   * One turn of `for (let cluster = 0; ...)` once the pool is known to be
   * non-empty: a seed drawn and struck from the pool, the seed test, and the
   * cluster grown from an accepted seed.
   */
  method PlantCluster(mapData: MapData, v: Variant, lib: MathLib, size: nat, pool0: seq<Pos>, placed0: int,
                      target: int, numClusters: int, rng: Rng, ghost refused0: set<Pos>)
    returns (pool: seq<Pos>, placed: int, planted: bool, seed: Pos, villageCells: seq<Pos>, ghost refused: set<Pos>)
    requires IsGrid(mapData.cells, size, size) && PoolOk(mapData.cells, v, pool0)
    requires Covered(mapData.cells, v, pool0, refused0)
    requires |pool0| > 0 && 0 <= placed0 < target && numClusters >= 1
    modifies mapData, rng
    ensures IsGrid(mapData.cells, size, size) && Settled(old(mapData.cells), mapData.cells, v, placed - placed0)
    ensures PoolOk(mapData.cells, v, pool) && Covered(mapData.cells, v, pool, refused)
    ensures seed in pool0 && placed0 <= placed <= target
    ensures planted <==> v == Legacy || RoomAround(old(mapData.cells), size, seed)
    ensures planted ==> refused == refused0 && placed - placed0 == |villageCells| >= 1 && villageCells[0] == seed
    ensures planted ==> |villageCells| <= ClusterTarget(target, numClusters)
    ensures planted ==> AllVillage(mapData.cells, villageCells) && Connected(v, villageCells)
    ensures !planted ==> refused == refused0 + {seed} && placed == placed0 && mapData.cells == old(mapData.cells)
  {
    ghost var g := mapData.cells;
    var seedIndex := rng.NextScaled(|pool0|);
    seed := pool0[seedIndex];
    pool := Splice(pool0, seedIndex);
    SeedStep(g, v, size, pool0, refused0, seedIndex);
    planted := SeedAccepted(mapData.cells, v, size, seed);
    if !planted {
      RefuseStep(g, v, pool0, refused0, seedIndex);
      placed, villageCells, refused := placed0, [], refused0 + {seed};
      return;
    }
    mapData.Settle(seed.x, seed.y);
    var targetClusterSize := ClusterTarget(target, numClusters);
    ghost var g1 := mapData.cells;
    pool, placed, villageCells := GrowCluster(mapData, v, lib, size, seed, pool, placed0 + 1, target, targetClusterSize,
                                              rng, refused0);
    SettledTrans(g, g1, mapData.cells, v, 1, placed - (placed0 + 1));
    refused := refused0;
  }

  /** The state the fallback loop keeps after i of the shuffled cells: g is the map before it. */
  ghost predicate Filling(g: BiomeMap, h: BiomeMap, v: Variant, size: nat, order: seq<Pos>, refused: set<Pos>, i: nat) {
    && i <= |order|
    && IsGrid(h, size, size) && Settled(g, h, v, i)
    && PoolOk(h, v, order[i..]) && Covered(h, v, order[i..], refused)
    && AllVillage(h, order[..i])
  }

  /** The fallback's first step: nothing placed yet. */
  lemma FillingStart(g: BiomeMap, v: Variant, size: nat, pool: seq<Pos>, order: seq<Pos>, refused: set<Pos>)
    requires IsGrid(g, size, size) && PoolOk(g, v, pool) && Covered(g, v, pool, refused)
    requires multiset(order) == multiset(pool)
    ensures |order| == |pool| && Filling(g, g, v, size, order, refused, 0)
  {
    PermutedPool(g, v, pool, order);
    PermutedCovered(g, v, pool, order, refused);
    SettledRefl(g, v);
    assert |order| == |multiset(pool)|;
    assert order[0..] == order;
  }

  /** What the fallback leaves once it stops after i cells: all of the pool covered if it ran to the end. */
  lemma FillingDone(g: BiomeMap, h: BiomeMap, v: Variant, size: nat, order: seq<Pos>, refused: set<Pos>, i: nat)
    requires Filling(g, h, v, size, order, refused, i)
    ensures IsGrid(h, size, size) && Settled(g, h, v, i) && AllVillage(h, order[..i])
    ensures i == |order| ==> Covered(h, v, [], refused)
  {
    assert i == |order| ==> order[i..] == [];
  }

  /** The next shuffled cell is a candidate, and writing a village into it keeps the fallback's state. */
  lemma FillingStep(g: BiomeMap, h: BiomeMap, v: Variant, size: nat, order: seq<Pos>, refused: set<Pos>, i: nat)
    requires Filling(g, h, v, size, order, refused, i) && i < |order|
    ensures InBounds(h, order[i].x, order[i].y) && h[order[i].y][order[i].x] in Eligible(v)
    ensures Filling(g, SetCell(h, order[i].x, order[i].y, Village), v, size, order, refused, i + 1)
  {
    var c := order[i];
    SplicePool(h, v, order[i..], 0);
    assert Splice(order[i..], 0) == order[i + 1..];
    SettleKeepsPool(h, v, order[i + 1..], c.x, c.y);
    SettleStep(g, h, v, i, c.x, c.y);
    JoinCovered(h, v, order[i..], refused, c.x, c.y, 0);
    AllVillageGrow(h, order[..i], c.x, c.y);
    assert order[..i + 1] == order[..i] + [c];
  }

  /** A cell written to Village extends a list of village cells. */
  lemma AllVillageGrow(g: BiomeMap, cells: seq<Pos>, x: int, y: int)
    requires AllVillage(g, cells) && InBounds(g, x, y)
    ensures AllVillage(SetCell(g, x, y, Village), cells + [Pos(x, y)])
  {
    var c := cells + [Pos(x, y)];
    assert forall j :: 0 <= j < |cells| ==> c[j] == cells[j];
  }

  /**
   * One turn of the fallback loop: a village written into the next shuffled
   * cell, which in MapGenerator.js is re-checked for Plains first; that
   * check never fails, as the pool lists only cells still holding Plains.
   */
  method FillNext(mapData: MapData, v: Variant, size: nat, order: seq<Pos>, ghost refused: set<Pos>, i: nat,
                  ghost g: BiomeMap) returns (wrote: bool)
    requires Filling(g, mapData.cells, v, size, order, refused, i) && i < |order|
    modifies mapData
    ensures wrote && Filling(g, mapData.cells, v, size, order, refused, i + 1)
  {
    var cell := order[i];
    FillingStep(g, mapData.cells, v, size, order, refused, i);
    wrote := v == Modern || mapData.cells[cell.y][cell.x] == Plains;
    if wrote {
      mapData.Settle(cell.x, cell.y);
    }
  }

  /**
   * The fallback: `possibleVillageCells.sort(() => this.rng.next() - 0.5)`,
   * then villages written into the cells in that order until the target is
   * met (in MapGenerator.js only into a cell that still holds Plains).
   */
  method PlaceRemaining(mapData: MapData, v: Variant, size: nat, pool: seq<Pos>, placed0: int, target: int,
                        shuffle: (seq<Pos>, State) -> Shuffled<Pos>, rng: Rng, ghost refused: set<Pos>)
    returns (placed: int)
    requires IsGrid(mapData.cells, size, size) && PoolOk(mapData.cells, v, pool) && Covered(mapData.cells, v, pool, refused)
    requires IsShuffler(shuffle) && placed0 < target && |pool| > 0
    modifies mapData, rng
    ensures IsGrid(mapData.cells, size, size) && Settled(old(mapData.cells), mapData.cells, v, placed - placed0)
    ensures placed == placed0 + Min(|pool|, target - placed0)
    ensures |shuffle(pool, old(rng.seed)).order| == |pool|
    ensures AllVillage(mapData.cells, shuffle(pool, old(rng.seed)).order[..placed - placed0])
    ensures placed < target ==> Covered(mapData.cells, v, [], refused)
    ensures rng.seed == Advance(old(rng.seed), shuffle(pool, old(rng.seed)).calls)
  {
    ghost var g, s0 := mapData.cells, rng.seed;
    var order := rng.SortRandomly(pool, shuffle);
    assert order == shuffle(pool, s0).order && rng.seed == Advance(s0, shuffle(pool, s0).calls);
    FillingStart(g, v, size, pool, order, refused);
    placed := FillInOrder(mapData, v, size, order, placed0, target, refused);
  }

  /** The fallback's loop over the shuffled cells, stopping once the target is met. */
  method FillInOrder(mapData: MapData, v: Variant, size: nat, order: seq<Pos>, placed0: int, target: int,
                     ghost refused: set<Pos>) returns (placed: int)
    requires Filling(mapData.cells, mapData.cells, v, size, order, refused, 0) && placed0 < target
    modifies mapData
    ensures IsGrid(mapData.cells, size, size) && Settled(old(mapData.cells), mapData.cells, v, placed - placed0)
    ensures placed == placed0 + Min(|order|, target - placed0)
    ensures AllVillage(mapData.cells, order[..placed - placed0])
    ensures placed < target ==> Covered(mapData.cells, v, [], refused)
  {
    ghost var g := mapData.cells;
    placed := placed0;
    var i := 0;
    while i < |order| && placed < target
      invariant placed - placed0 == i && placed <= target
      invariant Filling(g, mapData.cells, v, size, order, refused, i)
    {
      var wrote := FillNext(mapData, v, size, order, refused, i, g);
      if wrote {
        placed := placed + 1;
      }
      i := i + 1;
    }
    FillingDone(g, mapData.cells, v, size, order, refused, i);
  }

  /**
   * What the clusters leave, g0 being the map the pass received: refused
   * seeds only in MapGenerator.ts and only without room around them, and
   * every cluster a connected run of villages from a seed with room.
   */
  ghost predicate Outcome(g0: BiomeMap, g: BiomeMap, v: Variant, size: nat, refused: set<Pos>, clusters: seq<seq<Pos>>)
    requires IsGrid(g0, size, size)
    ensures Outcome(g0, g, v, size, refused, clusters) ==>
      forall c: seq<Pos> :: c in clusters ==> |c| >= 1 && InBounds(g, c[0].x, c[0].y) && g[c[0].y][c[0].x] == Village
  {
    && (v == Legacy ==> refused == {})
    && (forall p :: p in refused ==> !RoomAround(g0, size, p))
    && (forall c :: c in clusters ==> |c| >= 1 && AllVillage(g, c) && Connected(v, c))
    && (v == Modern ==> forall c :: c in clusters ==> RoomAround(g0, size, c[0]))
  }

  /** What the cluster loop keeps. */
  ghost predicate Planting(g0: BiomeMap, g: BiomeMap, v: Variant, size: nat, pool: seq<Pos>, refused: set<Pos>,
                           clusters: seq<seq<Pos>>)
    requires IsGrid(g0, size, size)
  {
    IsGrid(g, size, size) && PoolOk(g, v, pool) && Covered(g, v, pool, refused) && Outcome(g0, g, v, size, refused, clusters)
  }

  /** Clusters already grown stay villages while later ones are written. */
  lemma ClustersKept(g: BiomeMap, h: BiomeMap, v: Variant, n: int, clusters: seq<seq<Pos>>)
    requires Settled(g, h, v, n) && forall c :: c in clusters ==> AllVillage(g, c)
    ensures forall c :: c in clusters ==> AllVillage(h, c)
  {
    forall c | c in clusters
      ensures AllVillage(h, c)
    {
      SettledKeepsVillages(g, h, v, n, c);
    }
  }

  /** Writing villages keeps what the clusters left. */
  lemma OutcomeKept(g0: BiomeMap, g: BiomeMap, h: BiomeMap, v: Variant, size: nat, n: int, refused: set<Pos>,
                    clusters: seq<seq<Pos>>)
    requires IsGrid(g0, size, size) && Outcome(g0, g, v, size, refused, clusters) && Settled(g, h, v, n)
    ensures Outcome(g0, h, v, size, refused, clusters)
  {
    ClustersKept(g, h, v, n, clusters);
  }

  /** A grown cluster joins the others. */
  lemma OutcomeGrow(g0: BiomeMap, g: BiomeMap, v: Variant, size: nat, refused: set<Pos>, clusters: seq<seq<Pos>>,
                    cells: seq<Pos>)
    requires IsGrid(g0, size, size) && Outcome(g0, g, v, size, refused, clusters)
    requires |cells| >= 1 && AllVillage(g, cells) && Connected(v, cells)
    requires v == Modern ==> RoomAround(g0, size, cells[0])
    ensures Outcome(g0, g, v, size, refused, clusters + [cells])
  {
    assert forall c :: c in clusters + [cells] ==> c in clusters || c == cells;
  }

  /** A seed refused for want of room joins the refused ones. */
  lemma OutcomeRefuse(g0: BiomeMap, g: BiomeMap, v: Variant, size: nat, refused: set<Pos>, clusters: seq<seq<Pos>>,
                      seed: Pos)
    requires IsGrid(g0, size, size) && Outcome(g0, g, v, size, refused, clusters)
    requires v == Modern && !RoomAround(g0, size, seed)
    ensures Outcome(g0, g, v, size, refused + {seed}, clusters)
  {
  }

  /** One planted or refused seed keeps the cluster loop's state. */
  lemma PlantingStep(g0: BiomeMap, g: BiomeMap, h: BiomeMap, v: Variant, size: nat, refused: set<Pos>,
                     clusters: seq<seq<Pos>>, m: int, n: int, pool0: seq<Pos>, pool: seq<Pos>, refused1: set<Pos>,
                     planted: bool, seed: Pos, cells: seq<Pos>)
    requires IsGrid(g0, size, size) && Settled(g0, g, v, m)
    requires Planting(g0, g, v, size, pool0, refused, clusters)
    requires IsGrid(h, size, size) && Settled(g, h, v, n)
    requires PoolOk(h, v, pool) && Covered(h, v, pool, refused1)
    requires planted <==> v == Legacy || RoomAround(g, size, seed)
    requires planted ==> refused1 == refused && |cells| >= 1 && cells[0] == seed
    requires planted ==> AllVillage(h, cells) && Connected(v, cells)
    requires !planted ==> refused1 == refused + {seed}
    ensures Settled(g0, h, v, m + n)
    ensures planted ==> Planting(g0, h, v, size, pool, refused1, clusters + [cells])
    ensures !planted ==> Planting(g0, h, v, size, pool, refused1, clusters)
  {
    SettledTrans(g0, g, h, v, m, n);
    SettledKeepsRoom(g0, g, v, m, size, seed);
    OutcomeKept(g0, g, h, v, size, n, refused, clusters);
    if planted {
      OutcomeGrow(g0, h, v, size, refused, clusters, cells);
    } else {
      OutcomeRefuse(g0, h, v, size, refused, clusters, seed);
    }
  }

  /** The fallback keeps what the clusters left. */
  lemma FallbackStep(g0: BiomeMap, g: BiomeMap, h: BiomeMap, v: Variant, size: nat, pool: seq<Pos>, refused: set<Pos>,
                     clusters: seq<seq<Pos>>, m: int, n: int)
    requires IsGrid(g0, size, size) && Settled(g0, g, v, m)
    requires Planting(g0, g, v, size, pool, refused, clusters)
    requires IsGrid(h, size, size) && Settled(g, h, v, n)
    ensures Settled(g0, h, v, m + n) && Outcome(g0, h, v, size, refused, clusters)
  {
    SettledTrans(g0, g, h, v, m, n);
    ClustersKept(g, h, v, n, clusters);
  }

  /** `for (let cluster = 0; cluster < numClusters && placedVillages < targetVillageCells; cluster++)`. */
  method PlantClusters(mapData: MapData, v: Variant, lib: MathLib, size: nat, pool0: seq<Pos>, target: int,
                       numClusters: int, rng: Rng)
    returns (pool: seq<Pos>, placed: int, ghost refused: set<Pos>, ghost clusters: seq<seq<Pos>>)
    requires IsGrid(mapData.cells, size, size) && PoolOk(mapData.cells, v, pool0) && Covered(mapData.cells, v, pool0, {})
    requires numClusters >= 1
    modifies mapData, rng
    ensures Settled(old(mapData.cells), mapData.cells, v, placed) && 0 <= placed <= Max(0, target)
    ensures Planting(old(mapData.cells), mapData.cells, v, size, pool, refused, clusters)
    ensures |refused| + |clusters| <= numClusters
  {
    ghost var g0 := mapData.cells;
    pool, placed, refused, clusters := pool0, 0, {}, [];
    SettledRefl(g0, v);
    var cluster := 0;
    while cluster < numClusters && placed < target
      invariant 0 <= cluster <= numClusters && |refused| + |clusters| <= cluster
      invariant 0 <= placed <= Max(0, target) && Settled(g0, mapData.cells, v, placed)
      invariant Planting(g0, mapData.cells, v, size, pool, refused, clusters)
      decreases numClusters - cluster
    {
      if |pool| == 0 {
        break;
      }
      ghost var g, before, pool1 := mapData.cells, placed, pool;
      var planted, seed, villageCells;
      ghost var refused1;
      pool, placed, planted, seed, villageCells, refused1 :=
        PlantCluster(mapData, v, lib, size, pool, placed, target, numClusters, rng, refused);
      PlantingStep(g0, g, mapData.cells, v, size, refused, clusters, before, placed - before, pool1,
                   pool, refused1, planted, seed, villageCells);
      if planted {
        clusters := clusters + [villageCells];
      }
      refused := refused1;
      cluster := cluster + 1;
    }
  }

  /**
   * `_generateVillages(map)`: candidates collected, at most `numClusters`
   * clusters planted while the target is unmet, then the fallback. The
   * ghost results name the refused seeds and the clusters grown.
   */
  method GenerateVillages(mapData: MapData, v: Variant, lib: MathLib, size: nat, villagePercent: real,
                          shuffle: (seq<Pos>, State) -> Shuffled<Pos>, rng: Rng)
    returns (placedVillages: int, ghost refused: set<Pos>, ghost clusters: seq<seq<Pos>>)
    requires IsGrid(mapData.cells, size, size) && IsShuffler(shuffle)
    modifies mapData, rng
    ensures IsGrid(mapData.cells, size, size)
    ensures Settled(old(mapData.cells), mapData.cells, v, placedVillages)
    ensures 0 <= placedVillages <= Max(0, TargetVillages(size, villagePercent / 100.0))
    ensures placedVillages < TargetVillages(size, villagePercent / 100.0) ==> Covered(mapData.cells, v, [], refused)
    ensures |refused| + |clusters| <= NumClusters(villagePercent / 100.0)
    ensures Outcome(old(mapData.cells), mapData.cells, v, size, refused, clusters)
  {
    ghost var g0 := mapData.cells;
    var possibleVillageCells := CollectCandidates(mapData.cells, size, v);
    CandidatesCovered(g0, v, size);
    var targetVillageCells := TargetVillages(size, villagePercent / 100.0);
    var numClusters := NumClusters(villagePercent / 100.0);
    var placed;
    possibleVillageCells, placed, refused, clusters :=
      PlantClusters(mapData, v, lib, size, possibleVillageCells, targetVillageCells, numClusters, rng);
    if placed < targetVillageCells && |possibleVillageCells| > 0 {
      ghost var g, before := mapData.cells, placed;
      placed := PlaceRemaining(mapData, v, size, possibleVillageCells, placed, targetVillageCells, shuffle, rng, refused);
      FallbackStep(g0, g, mapData.cells, v, size, possibleVillageCells, refused, clusters, before, placed - before);
      assert placed < targetVillageCells ==> Covered(mapData.cells, v, [], refused);
    } else if placed < targetVillageCells {
      assert possibleVillageCells == [];
      assert Covered(mapData.cells, v, [], refused);
    }
    placedVillages := placed;
  }
}
