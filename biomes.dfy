/**
 * The four terrain categories the generators write into a map, the map
 * itself (a list of rows), and counting over it.
 *
 * The generators name their categories BIOMES.OCEAN, BIOMES.DESERT,
 * BIOMES.PLAINS and BIOMES.VILLAGE and treat them as distinct ids; they are the
 * constructors of Biome here.
 */
module Biomes {
  import opened Grids

  datatype Biome = Ocean | Desert | Plains | Village

  /** A map: row y, column x is `map[y][x]`. */
  type BiomeMap = seq<seq<Biome>>

  /** A map with at least one row, all rows as long as the first. */
  predicate IsBiomeMap(g: BiomeMap) {
    |g| > 0 && IsRect(g)
  }

  /** A cell coordinate as the generators' `{ x, y }` records hold it. */
  datatype Pos = Pos(x: int, y: int)

  /** The map with cell (x, y) replaced by b. */
  function SetCell(g: BiomeMap, x: int, y: int, b: Biome): (r: BiomeMap)
    requires InBounds(g, x, y)
    ensures |r| == |g|
    ensures forall i :: 0 <= i < |g| ==> |r[i]| == |g[i]|
    ensures r[y][x] == b
    ensures forall i, j :: 0 <= i < |g| && 0 <= j < |g[i]| && (i != y || j != x) ==> r[i][j] == g[i][j]
  {
    g[y := g[y][x := b]]
  }

  function CountRow(row: seq<Biome>, b: Biome): (n: nat)
    ensures n <= |row|
  {
    if |row| == 0 then 0 else (if row[0] == b then 1 else 0) + CountRow(row[1..], b)
  }

  /** The number of cells of g that hold b. */
  function Count(g: BiomeMap, b: Biome): nat {
    if |g| == 0 then 0 else CountRow(g[0], b) + Count(g[1..], b)
  }

  lemma {:induction false} CountRowUpdate(row: seq<Biome>, x: nat, b: Biome, c: Biome)
    requires x < |row|
    ensures CountRow(row[x := b], c)
         == CountRow(row, c) - (if row[x] == c then 1 else 0) + (if b == c then 1 else 0)
  {
    if x > 0 {
      assert row[x := b][1..] == row[1..][x - 1 := b];
      CountRowUpdate(row[1..], x - 1, b, c);
    } else {
      assert row[x := b][1..] == row[1..];
    }
  }

  /** Writing one cell changes each count by at most one, exactly as the old and new values say. */
  lemma {:induction false} CountUpdate(g: BiomeMap, x: int, y: int, b: Biome, c: Biome)
    requires InBounds(g, x, y)
    ensures Count(SetCell(g, x, y, b), c)
         == Count(g, c) - (if g[y][x] == c then 1 else 0) + (if b == c then 1 else 0)
  {
    if y > 0 {
      assert SetCell(g, x, y, b)[1..] == SetCell(g[1..], x, y - 1, b);
      CountUpdate(g[1..], x, y - 1, b, c);
    } else {
      assert SetCell(g, x, y, b)[1..] == g[1..];
      CountRowUpdate(g[0], x, b, c);
    }
  }

  lemma {:induction false} CountRowAppend(a: seq<Biome>, b: seq<Biome>, c: Biome)
    ensures CountRow(a + b, c) == CountRow(a, c) + CountRow(b, c)
  {
    if a == [] {
      assert a + b == b;
    } else {
      assert (a + b)[1..] == a[1..] + b;
      CountRowAppend(a[1..], b, c);
    }
  }

  lemma {:induction false} CountAppend(g: BiomeMap, h: BiomeMap, c: Biome)
    ensures Count(g + h, c) == Count(g, c) + Count(h, c)
  {
    if g == [] {
      assert g + h == h;
    } else {
      assert (g + h)[1..] == g[1..] + h;
      CountAppend(g[1..], h, c);
    }
  }

  lemma {:induction false} CoverageRow(row: seq<Biome>)
    ensures CountRow(row, Ocean) + CountRow(row, Desert) + CountRow(row, Plains) + CountRow(row, Village) == |row|
  {
    if row != [] {
      CoverageRow(row[1..]);
    }
  }

  /** Every cell holds exactly one biome: the four counts add up to the number of cells. */
  lemma {:induction false} Coverage(g: BiomeMap)
    ensures Count(g, Ocean) + Count(g, Desert) + Count(g, Plains) + Count(g, Village) == CellTotal(g)
  {
    if g != [] {
      CoverageRow(g[0]);
      Coverage(g[1..]);
    }
  }

  /** A rows x cols map has rows * cols cells spread over the four biomes. */
  lemma CoverageGrid(g: BiomeMap, rows: nat, cols: nat)
    requires IsGrid(g, rows, cols)
    ensures Count(g, Ocean) + Count(g, Desert) + Count(g, Plains) + Count(g, Village) == rows * cols
  {
    Coverage(g);
    CellTotalGrid(g, rows, cols);
  }

  /** g2 has the shape of g1, and a cell that differs held a biome of `from` and now holds `to`. */
  predicate ChangesOnly(g1: BiomeMap, g2: BiomeMap, from: set<Biome>, to: Biome) {
    && |g2| == |g1|
    && (forall y :: 0 <= y < |g1| ==> |g2[y]| == |g1[y]|)
    && (forall y, x :: 0 <= y < |g1| && 0 <= x < |g1[y]| && g2[y][x] != g1[y][x] ==>
          g1[y][x] in from && g2[y][x] == to)
  }

  lemma {:induction false} CountRowKept(r1: seq<Biome>, r2: seq<Biome>, b: Biome)
    requires |r1| == |r2|
    requires forall x :: 0 <= x < |r1| && r1[x] == b ==> r2[x] == b
    ensures CountRow(r2, b) >= CountRow(r1, b)
  {
    if r1 != [] {
      CountRowKept(r1[1..], r2[1..], b);
    }
  }

  /** A biome that no cell loses cannot lose count. */
  lemma {:induction false} CountKept(g1: BiomeMap, g2: BiomeMap, b: Biome)
    requires |g1| == |g2|
    requires forall y :: 0 <= y < |g1| ==> |g2[y]| == |g1[y]|
    requires forall y, x :: 0 <= y < |g1| && 0 <= x < |g1[y]| && g1[y][x] == b ==> g2[y][x] == b
    ensures Count(g2, b) >= Count(g1, b)
  {
    if g1 != [] {
      CountRowKept(g1[0], g2[0], b);
      CountKept(g1[1..], g2[1..], b);
    }
  }

  lemma {:induction false} CountRowSame(r1: seq<Biome>, r2: seq<Biome>, b: Biome)
    requires |r1| == |r2|
    requires forall x :: 0 <= x < |r1| ==> (r1[x] == b) == (r2[x] == b)
    ensures CountRow(r2, b) == CountRow(r1, b)
  {
    if r1 != [] {
      CountRowSame(r1[1..], r2[1..], b);
    }
  }

  /** Two maps of one shape that hold b in the same cells have the same count of b. */
  lemma {:induction false} CountSame(g1: BiomeMap, g2: BiomeMap, b: Biome)
    requires |g1| == |g2|
    requires forall y :: 0 <= y < |g1| ==> |g2[y]| == |g1[y]|
    requires forall y, x :: 0 <= y < |g1| && 0 <= x < |g1[y]| ==> (g1[y][x] == b) == (g2[y][x] == b)
    ensures Count(g2, b) == Count(g1, b)
  {
    if g1 != [] {
      CountRowSame(g1[0], g2[0], b);
      CountSame(g1[1..], g2[1..], b);
    }
  }

  lemma {:induction false} CountRowAbsent(row: seq<Biome>, b: Biome)
    requires forall x :: 0 <= x < |row| ==> row[x] != b
    ensures CountRow(row, b) == 0
  {
    if row != [] {
      CountRowAbsent(row[1..], b);
    }
  }

  /** A biome that no cell holds has count zero. */
  lemma {:induction false} CountAbsent(g: BiomeMap, b: Biome)
    requires forall y, x :: 0 <= y < |g| && 0 <= x < |g[y]| ==> g[y][x] != b
    ensures Count(g, b) == 0
  {
    if g != [] {
      CountRowAbsent(g[0], b);
      CountAbsent(g[1..], b);
    }
  }

  lemma ChangesOnlyRefl(g: BiomeMap, from: set<Biome>, to: Biome)
    ensures ChangesOnly(g, g, from, to)
  {
  }

  /** Two passes that each only turn cells of `from` into `to` together do the same, as `to` is not in `from`. */
  lemma ChangesOnlyTrans(g1: BiomeMap, g2: BiomeMap, g3: BiomeMap, from: set<Biome>, to: Biome)
    requires to !in from
    requires ChangesOnly(g1, g2, from, to) && ChangesOnly(g2, g3, from, to)
    ensures ChangesOnly(g1, g3, from, to)
  {
  }

  /** Writing `to` into a cell that holds a biome of `from`, or `to` already, changes only that way. */
  lemma SetCellChangesOnly(g: BiomeMap, x: int, y: int, from: set<Biome>, to: Biome)
    requires InBounds(g, x, y) && (g[y][x] in from || g[y][x] == to)
    ensures ChangesOnly(g, SetCell(g, x, y, to), from, to)
  {
  }

  /** A biome neither in `from` nor `to` keeps exactly its cells, so its count. */
  lemma ChangesOnlyKeepsOther(g1: BiomeMap, g2: BiomeMap, from: set<Biome>, to: Biome, b: Biome)
    requires ChangesOnly(g1, g2, from, to) && b !in from && b != to
    ensures Count(g2, b) == Count(g1, b)
  {
    CountSame(g1, g2, b);
  }

  lemma ChangesOnlyKeepsTarget(g1: BiomeMap, g2: BiomeMap, from: set<Biome>, to: Biome)
    requires ChangesOnly(g1, g2, from, to)
    ensures Count(g2, to) >= Count(g1, to)
  {
    CountKept(g1, g2, to);
  }

  /** Counting the first y + 1 rows adds row y to the count of the first y. */
  /** The count over the first j rows is that over the first j - 1 and the count of row j - 1. */
  lemma CountPrefixLast(g: BiomeMap, j: nat, b: Biome)
    requires 0 < j <= |g|
    ensures Count(g[..j], b) == Count(g[..j - 1], b) + CountRow(g[j - 1], b)
  {
    CountPrefixStep(g, j - 1, b);
  }

  lemma CountPrefixStep(g: BiomeMap, y: nat, b: Biome)
    requires y < |g|
    ensures Count(g[..y + 1], b) == Count(g[..y], b) + CountRow(g[y], b)
  {
    assert g[..y + 1] == g[..y] + [g[y]];
    CountAppend(g[..y], [g[y]], b);
    assert [g[y]][1..] == [];
  }

  /** Counting the first x + 1 cells of a row adds cell x. */
  lemma CountRowPrefixStep(row: seq<Biome>, x: nat, b: Biome)
    requires x < |row|
    ensures CountRow(row[..x + 1], b) == CountRow(row[..x], b) + (if row[x] == b then 1 else 0)
  {
    assert row[..x + 1] == row[..x] + [row[x]];
    CountRowAppend(row[..x], [row[x]], b);
  }
}
