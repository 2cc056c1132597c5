/**
 * Steps 4 to 9 of the generators' `generate`: the elevation and aridity
 * fields become a first map by ranking.
 *
 * Every cell becomes a record `{ x, y, elevation, aridity }`, row by row. The
 * records are sorted by elevation (stable); the elevation found at position
 * floor(cells * oceanRatio) of that order is the ocean threshold, and every
 * cell at or below it is ocean. The other cells are sorted from the most arid
 * to the least (stable); the first floor(size * size * desertRatio) of them
 * become desert, and the rest plains.
 */
module Classification {
  import opened JsNumeric
  import opened Grids
  import opened Biomes
  import opened Sorting

  /** The `{ x, y, elevation, aridity }` record of one cell. */
  datatype Cell = Cell(x: int, y: int, elevation: real, aridity: real)

  function ElevationOf(c: Cell): real {
    c.elevation
  }

  /** The comparator `(a, b) => b.aridity - a.aridity` sorts ascending by this key. */
  function DrynessRank(c: Cell): real {
    -c.aridity
  }

  /** Two size x size fields of reals. */
  predicate Fields(elev: seq<seq<real>>, arid: seq<seq<real>>, size: nat) {
    IsGrid(elev, size, size) && IsGrid(arid, size, size)
  }

  /** The record of cell (x, y). */
  function EntryAt(elev: seq<seq<real>>, arid: seq<seq<real>>, size: nat, x: nat, y: nat): Cell
    requires Fields(elev, arid, size) && x < size && y < size
  {
    Cell(x, y, elev[y][x], arid[y][x])
  }

  /** c is the record of a cell of the fields. */
  predicate Belongs(elev: seq<seq<real>>, arid: seq<seq<real>>, size: nat, c: Cell) {
    && 0 <= c.x < size && 0 <= c.y < size
    && c.y < |elev| && c.x < |elev[c.y]| && c.y < |arid| && c.x < |arid[c.y]|
    && c.elevation == elev[c.y][c.x] && c.aridity == arid[c.y][c.x]
  }

  function InField(elev: seq<seq<real>>, arid: seq<seq<real>>, size: nat): Cell -> bool {
    (c: Cell) => Belongs(elev, arid, size, c)
  }

  /** The land records: cells of the field above the threshold. */
  function LandOf(elev: seq<seq<real>>, arid: seq<seq<real>>, size: nat, threshold: real): Cell -> bool {
    (c: Cell) => Belongs(elev, arid, size, c) && c.elevation > threshold
  }

  /** The records of the first n cells of row y. */
  function RowCells(elev: seq<seq<real>>, arid: seq<seq<real>>, size: nat, y: nat, n: nat): (cs: seq<Cell>)
    requires Fields(elev, arid, size) && y < size && n <= size
    ensures |cs| == n
    ensures forall i :: 0 <= i < n ==> cs[i] == EntryAt(elev, arid, size, i, y)
  {
    if n == 0 then [] else RowCells(elev, arid, size, y, n - 1) + [EntryAt(elev, arid, size, n - 1, y)]
  }

  /** The records of the first k rows, row by row: the order the source pushes them in. */
  function Cells(elev: seq<seq<real>>, arid: seq<seq<real>>, size: nat, k: nat): seq<Cell>
    requires Fields(elev, arid, size) && k <= size
  {
    if k == 0 then [] else Cells(elev, arid, size, k - 1) + RowCells(elev, arid, size, k - 1, size)
  }

  /** The whole flattened field. */
  function AllCells(elev: seq<seq<real>>, arid: seq<seq<real>>, size: nat): seq<Cell>
    requires Fields(elev, arid, size)
  {
    Cells(elev, arid, size, size)
  }

  /** Each record of the first k rows is the record of a cell of those rows. */
  lemma {:induction false} CellsBelong(elev: seq<seq<real>>, arid: seq<seq<real>>, size: nat, k: nat)
    requires Fields(elev, arid, size) && k <= size
    ensures forall i :: 0 <= i < |Cells(elev, arid, size, k)| ==>
      Belongs(elev, arid, size, Cells(elev, arid, size, k)[i]) && Cells(elev, arid, size, k)[i].y < k
  {
    if k > 0 {
      CellsBelong(elev, arid, size, k - 1);
      var front, row := Cells(elev, arid, size, k - 1), RowCells(elev, arid, size, k - 1, size);
      var all := front + row;
      forall i | 0 <= i < |all| ensures Belongs(elev, arid, size, all[i]) && all[i].y < k {
        if i >= |front| {
          assert all[i] == row[i - |front|];
        } else {
          assert all[i] == front[i];
        }
      }
    }
  }

  /** Every cell of the first k rows has its record among them. */
  lemma {:induction false} CellsCoverAt(elev: seq<seq<real>>, arid: seq<seq<real>>, size: nat, k: nat, x: nat, y: nat)
    requires Fields(elev, arid, size) && k <= size && y < k && x < size
    ensures EntryAt(elev, arid, size, x, y) in Cells(elev, arid, size, k)
  {
    var front, row := Cells(elev, arid, size, k - 1), RowCells(elev, arid, size, k - 1, size);
    var c := EntryAt(elev, arid, size, x, y);
    if y == k - 1 {
      assert row[x] == c;
      InAppendRight(front, row, x);
    } else {
      CellsCoverAt(elev, arid, size, k - 1, x, y);
      InAppendLeft(front, row, c);
    }
  }

  /** Every cell of the field has its record in the flattened list. */
  lemma CellsCover(elev: seq<seq<real>>, arid: seq<seq<real>>, size: nat)
    requires Fields(elev, arid, size)
    ensures forall y, x :: 0 <= y < size && 0 <= x < size ==> EntryAt(elev, arid, size, x, y) in AllCells(elev, arid, size)
  {
    forall y, x | 0 <= y < size && 0 <= x < size ensures EntryAt(elev, arid, size, x, y) in AllCells(elev, arid, size) {
      CellsCoverAt(elev, arid, size, size, x, y);
    }
  }

  /** No record occurs twice. */
  lemma {:induction false} CellsNoDup(elev: seq<seq<real>>, arid: seq<seq<real>>, size: nat, k: nat)
    requires Fields(elev, arid, size) && k <= size
    ensures NoDup(Cells(elev, arid, size, k))
  {
    if k > 0 {
      CellsNoDup(elev, arid, size, k - 1);
      CellsBelong(elev, arid, size, k - 1);
      var front, row := Cells(elev, arid, size, k - 1), RowCells(elev, arid, size, k - 1, size);
      assert NoDup(row) by {
        forall i, j | 0 <= i < j < |row| ensures row[i] != row[j] {
          assert row[i].x == i && row[j].x == j;
        }
      }
      forall i, j | 0 <= i < |front| && 0 <= j < |row| ensures front[i] != row[j] {
        assert front[i].y < k - 1 && row[j].y == k - 1;
      }
      NoDupConcat(front, row);
    }
  }

  lemma {:induction false} CellsLength(elev: seq<seq<real>>, arid: seq<seq<real>>, size: nat, k: nat)
    requires Fields(elev, arid, size) && k <= size
    ensures |Cells(elev, arid, size, k)| == k * size
  {
    if k > 0 {
      CellsLength(elev, arid, size, k - 1);
      assert (k - 1) * size + size == k * size;
    }
  }

  /** The loop of step 5 that flattens the two fields into records. */
  method Flatten(elev: seq<seq<real>>, arid: seq<seq<real>>, size: nat) returns (cells: seq<Cell>)
    requires Fields(elev, arid, size)
    ensures cells == AllCells(elev, arid, size)
  {
    cells := [];
    var y := 0;
    while y < size
      invariant 0 <= y <= size
      invariant cells == Cells(elev, arid, size, y)
    {
      var x := 0;
      while x < size
        invariant 0 <= x <= size
        invariant cells == Cells(elev, arid, size, y) + RowCells(elev, arid, size, y, x)
      {
        AppendAssoc(Cells(elev, arid, size, y), RowCells(elev, arid, size, y, x), [EntryAt(elev, arid, size, x, y)]);
        cells := cells + [Cell(x, y, elev[y][x], arid[y][x])];
        x := x + 1;
      }
      y := y + 1;
    }
  }

  /** `Math.floor(sortedElevations.length * oceanRatio)`: always a position of the list. */
  function ThresholdIndex(n: nat, oceanRatio: real): (i: nat)
    requires n > 0 && 0.0 <= oceanRatio < 1.0
    ensures i < n
  {
    var v := n as real * oceanRatio;
    ScaledBelow(n as real, oceanRatio);
    assert v.Floor as real <= v < n as real;
    v.Floor
  }

  lemma ScaledBelow(m: real, r: real)
    requires m > 0.0 && 0.0 <= r < 1.0
    ensures 0.0 <= m * r < m
  {
    assert m * (1.0 - r) > 0.0;
    assert m * (1.0 - r) == m - m * r;
  }

  /** `Math.floor(this.size * this.size * desertRatio)`, which may be negative. */
  function DesertQuota(size: nat, desertRatio: real): int {
    ((size * size) as real * desertRatio).Floor
  }

  /** The intermediate lists the ranking builds. */
  datatype Ranking = Ranking(
    byElevation: seq<Cell>,   // every record, sorted by elevation
    threshold: real,          // the ocean threshold
    land: seq<Cell>,          // the records above it, by aridity from most to least arid
    desertCount: nat)         // how many of `land` become desert

  function IsLand(threshold: real): Cell -> bool {
    (c: Cell) => c.elevation > threshold
  }

  function Rank(elev: seq<seq<real>>, arid: seq<seq<real>>, size: nat, oceanRatio: real, desertRatio: real): (rk: Ranking)
    requires Fields(elev, arid, size) && size > 0 && 0.0 <= oceanRatio < 1.0
    ensures SortedBy(rk.byElevation, ElevationOf)
    ensures multiset(rk.byElevation) == multiset(AllCells(elev, arid, size))
    ensures SortedBy(rk.land, DrynessRank)
    ensures rk.desertCount <= |rk.land|
  {
    CellsCoverAt(elev, arid, size, size, 0, 0);
    var sorted := SortBy(AllCells(elev, arid, size), ElevationOf);
    var threshold := sorted[ThresholdIndex(|sorted|, oceanRatio)].elevation;
    var land := SortBy(Filter(sorted, IsLand(threshold)), DrynessRank);
    Ranking(sorted, threshold, land, Max(0, Min(DesertQuota(size, desertRatio), |land|)))
  }

  /** The biome step 6, 8 or 9 gives the cell with elevation e and record c. */
  function CellClass(rk: Ranking, e: real, c: Cell): Biome
    requires rk.desertCount <= |rk.land|
  {
    if e <= rk.threshold then Ocean
    else if c in rk.land[..rk.desertCount] then Desert
    else Plains
  }

  /** The first map: ocean at or below the threshold, then desert for the most arid land, then plains. */
  function Classified(elev: seq<seq<real>>, arid: seq<seq<real>>, size: nat, oceanRatio: real, desertRatio: real): (g: BiomeMap)
    requires Fields(elev, arid, size) && size > 0 && 0.0 <= oceanRatio < 1.0
    ensures IsGrid(g, size, size)
  {
    ClassifiedBy(elev, arid, size, Rank(elev, arid, size, oceanRatio, desertRatio))
  }

  /** The map a ranking gives the fields, row by row. */
  function ClassifiedBy(elev: seq<seq<real>>, arid: seq<seq<real>>, size: nat, rk: Ranking): (g: BiomeMap)
    requires Fields(elev, arid, size) && rk.desertCount <= |rk.land|
    ensures IsGrid(g, size, size)
  {
    seq(size, y requires 0 <= y < size => ClassRow(elev, arid, size, rk, y))
  }

  function ClassRow(elev: seq<seq<real>>, arid: seq<seq<real>>, size: nat, rk: Ranking, y: nat): (row: seq<Biome>)
    requires Fields(elev, arid, size) && rk.desertCount <= |rk.land| && y < size
    ensures |row| == size
  {
    seq(size, x requires 0 <= x < size => CellClass(rk, elev[y][x], EntryAt(elev, arid, size, x, y)))
  }

  lemma ClassifiedAt(elev: seq<seq<real>>, arid: seq<seq<real>>, size: nat, oceanRatio: real, desertRatio: real, x: nat, y: nat)
    requires Fields(elev, arid, size) && size > 0 && 0.0 <= oceanRatio < 1.0 && x < size && y < size
    ensures Classified(elev, arid, size, oceanRatio, desertRatio)[y][x]
         == CellClass(Rank(elev, arid, size, oceanRatio, desertRatio), elev[y][x], EntryAt(elev, arid, size, x, y))
  {
  }

  lemma ByElevationInField(elev: seq<seq<real>>, arid: seq<seq<real>>, size: nat, oceanRatio: real, desertRatio: real)
    requires Fields(elev, arid, size) && size > 0 && 0.0 <= oceanRatio < 1.0
    ensures var rk := Rank(elev, arid, size, oceanRatio, desertRatio);
      forall i :: 0 <= i < |rk.byElevation| ==> InField(elev, arid, size)(rk.byElevation[i])
  {
    var rk := Rank(elev, arid, size, oceanRatio, desertRatio);
    CellsBelong(elev, arid, size, size);
    AllOfSub(rk.byElevation, AllCells(elev, arid, size), InField(elev, arid, size));
  }

  /** Every land record is the record of a cell above the threshold. */
  lemma LandInField(elev: seq<seq<real>>, arid: seq<seq<real>>, size: nat, oceanRatio: real, desertRatio: real)
    requires Fields(elev, arid, size) && size > 0 && 0.0 <= oceanRatio < 1.0
    ensures var rk := Rank(elev, arid, size, oceanRatio, desertRatio);
      forall i :: 0 <= i < |rk.land| ==> LandOf(elev, arid, size, rk.threshold)(rk.land[i])
  {
    var rk := Rank(elev, arid, size, oceanRatio, desertRatio);
    ByElevationInField(elev, arid, size, oceanRatio, desertRatio);
    SortFilterAll(rk.byElevation, IsLand(rk.threshold), InField(elev, arid, size), DrynessRank);
    assert rk.land == SortBy(Filter(rk.byElevation, IsLand(rk.threshold)), DrynessRank);
    forall i | 0 <= i < |rk.land| ensures LandOf(elev, arid, size, rk.threshold)(rk.land[i]) {
      assert Both(InField(elev, arid, size), IsLand(rk.threshold))(rk.land[i]);
    }
  }

  lemma LandNoDup(elev: seq<seq<real>>, arid: seq<seq<real>>, size: nat, oceanRatio: real, desertRatio: real)
    requires Fields(elev, arid, size) && size > 0 && 0.0 <= oceanRatio < 1.0
    ensures NoDup(Rank(elev, arid, size, oceanRatio, desertRatio).land)
  {
    var rk := Rank(elev, arid, size, oceanRatio, desertRatio);
    CellsNoDup(elev, arid, size, size);
    NoDupPerm(rk.byElevation, AllCells(elev, arid, size));
    FilterNoDup(rk.byElevation, IsLand(rk.threshold));
    NoDupPerm(rk.land, Filter(rk.byElevation, IsLand(rk.threshold)));
  }

  lemma LandCount(elev: seq<seq<real>>, arid: seq<seq<real>>, size: nat, oceanRatio: real, desertRatio: real)
    requires Fields(elev, arid, size) && size > 0 && 0.0 <= oceanRatio < 1.0
    ensures var rk := Rank(elev, arid, size, oceanRatio, desertRatio);
      |rk.land| == CountWhere(AllCells(elev, arid, size), IsLand(rk.threshold))
  {
    var rk := Rank(elev, arid, size, oceanRatio, desertRatio);
    CountWherePerm(rk.byElevation, AllCells(elev, arid, size), IsLand(rk.threshold));
  }

  /** Whether the record's cell holds b in g. */
  function AtBiome(g: BiomeMap, b: Biome): Cell -> bool {
    (c: Cell) => InBounds(g, c.x, c.y) && g[c.y][c.x] == b
  }

  lemma {:induction false} CountRowByCells(elev: seq<seq<real>>, arid: seq<seq<real>>, size: nat, g: BiomeMap, b: Biome, y: nat, n: nat)
    requires Fields(elev, arid, size) && IsGrid(g, size, size) && y < size && n <= size
    ensures CountWhere(RowCells(elev, arid, size, y, n), AtBiome(g, b)) == CountRow(g[y][..n], b)
  {
    if n > 0 {
      CountRowByCells(elev, arid, size, g, b, y, n - 1);
      CountWhereAppend(RowCells(elev, arid, size, y, n - 1), [EntryAt(elev, arid, size, n - 1, y)], AtBiome(g, b));
      CountRowPrefixStep(g[y], n - 1, b);
    }
  }

  lemma {:induction false} CountPrefixByCells(elev: seq<seq<real>>, arid: seq<seq<real>>, size: nat, g: BiomeMap, b: Biome, k: nat)
    requires Fields(elev, arid, size) && IsGrid(g, size, size) && k <= size
    ensures CountWhere(Cells(elev, arid, size, k), AtBiome(g, b)) == Count(g[..k], b)
  {
    if k == 0 {
      assert g[..0] == [];
    } else {
      CountPrefixByCells(elev, arid, size, g, b, k - 1);
      CellsCountStep(elev, arid, size, AtBiome(g, b), k);
      CountFullRowByCells(elev, arid, size, g, b, k - 1);
      CountPrefixStep(g, k - 1, b);
    }
  }

  /** Counting the records of the first k rows adds row k - 1 to the count of the first k - 1. */
  lemma CellsCountStep(elev: seq<seq<real>>, arid: seq<seq<real>>, size: nat, p: Cell -> bool, k: nat)
    requires Fields(elev, arid, size) && 0 < k <= size
    ensures CountWhere(Cells(elev, arid, size, k), p)
      == CountWhere(Cells(elev, arid, size, k - 1), p) + CountWhere(RowCells(elev, arid, size, k - 1, size), p)
  {
    CountWhereAppend(Cells(elev, arid, size, k - 1), RowCells(elev, arid, size, k - 1, size), p);
  }

  /** A whole row counted over its records. */
  lemma CountFullRowByCells(elev: seq<seq<real>>, arid: seq<seq<real>>, size: nat, g: BiomeMap, b: Biome, y: nat)
    requires Fields(elev, arid, size) && IsGrid(g, size, size) && y < size
    ensures CountWhere(RowCells(elev, arid, size, y, size), AtBiome(g, b)) == CountRow(g[y], b)
  {
    CountRowByCells(elev, arid, size, g, b, y, size);
    assert g[y][..size] == g[y];
  }

  /** Counting a size x size map cell by cell and over the records of its cells agree. */
  lemma CountByCells(elev: seq<seq<real>>, arid: seq<seq<real>>, size: nat, g: BiomeMap, b: Biome)
    requires Fields(elev, arid, size) && IsGrid(g, size, size)
    ensures Count(g, b) == CountWhere(AllCells(elev, arid, size), AtBiome(g, b))
  {
    CountPrefixByCells(elev, arid, size, g, b, size);
    assert g[..size] == g;
  }

  /**
   * `newMap` after step 6, 8 or 9: null is `Empty`.
   */
  datatype Slot = Empty | Holds(biome: Biome)

  /** The cells at or below the threshold hold ocean and the others nothing (step 6). */
  method AssignOcean(elev: seq<seq<real>>, size: nat, oceanThreshold: real) returns (newMap: seq<seq<Slot>>)
    requires IsGrid(elev, size, size)
    ensures IsGrid(newMap, size, size)
    ensures forall y, x :: 0 <= y < size && 0 <= x < size ==>
      newMap[y][x] == if elev[y][x] <= oceanThreshold then Holds(Ocean) else Empty
  {
    newMap := [];
    var y := 0;
    while y < size
      invariant 0 <= y <= size
      invariant IsGrid(newMap, y, size)
      invariant forall i, x :: 0 <= i < y && 0 <= x < size ==>
        newMap[i][x] == if elev[i][x] <= oceanThreshold then Holds(Ocean) else Empty
    {
      var row := [];
      var x := 0;
      while x < size
        invariant 0 <= x <= size
        invariant |row| == x
        invariant forall j :: 0 <= j < x ==> row[j] == if elev[y][j] <= oceanThreshold then Holds(Ocean) else Empty
      {
        row := row + [if elev[y][x] <= oceanThreshold then Holds(Ocean) else Empty];
        x := x + 1;
      }
      newMap := newMap + [row];
      y := y + 1;
    }
  }

  /** Whether the record's cell is still null. */
  function Unassigned(newMap: seq<seq<Slot>>): Cell -> bool {
    (c: Cell) => InBounds(newMap, c.x, c.y) && newMap[c.y][c.x] == Empty
  }

  /** Step 8: the first `count` records of `land` become desert. */
  method AssignDesert(elev: seq<seq<real>>, arid: seq<seq<real>>, size: nat, threshold: real,
                      land: seq<Cell>, count: nat, slots: seq<seq<Slot>>) returns (newMap: seq<seq<Slot>>)
    requires Fields(elev, arid, size) && IsGrid(slots, size, size) && count <= |land|
    requires forall i :: 0 <= i < |land| ==> LandOf(elev, arid, size, threshold)(land[i])
    requires forall y, x :: 0 <= y < size && 0 <= x < size ==>
      slots[y][x] == if elev[y][x] <= threshold then Holds(Ocean) else Empty
    ensures IsGrid(newMap, size, size)
    ensures forall y, x :: 0 <= y < size && 0 <= x < size ==>
      newMap[y][x] == if elev[y][x] <= threshold then Holds(Ocean)
                      else if EntryAt(elev, arid, size, x, y) in land[..count] then Holds(Desert)
                      else Empty
  {
    newMap := slots;
    var i := 0;
    while i < count
      invariant 0 <= i <= count
      invariant IsGrid(newMap, size, size)
      invariant forall y, x :: 0 <= y < size && 0 <= x < size ==>
        newMap[y][x] == if elev[y][x] <= threshold then Holds(Ocean)
                        else if EntryAt(elev, arid, size, x, y) in land[..i] then Holds(Desert)
                        else Empty
    {
      var cell := land[i];
      assert LandOf(elev, arid, size, threshold)(cell);
      newMap := newMap[cell.y := newMap[cell.y][cell.x := Holds(Desert)]];
      forall y, x | 0 <= y < size && 0 <= x < size && (y != cell.y || x != cell.x)
        ensures EntryAt(elev, arid, size, x, y) in land[..i + 1] <==> EntryAt(elev, arid, size, x, y) in land[..i]
      {
        assert land[..i + 1] == land[..i] + [cell];
      }
      assert land[i] in land[..i + 1];
      i := i + 1;
    }
  }

  /** Step 9: every cell still null becomes plains. */
  method AssignPlains(slots: seq<seq<Slot>>, size: nat) returns (newMap: BiomeMap)
    requires IsGrid(slots, size, size)
    ensures IsGrid(newMap, size, size)
    ensures forall y, x :: 0 <= y < size && 0 <= x < size ==>
      newMap[y][x] == match slots[y][x] case Empty => Plains case Holds(b) => b
  {
    newMap := [];
    var y := 0;
    while y < size
      invariant 0 <= y <= size
      invariant IsGrid(newMap, y, size)
      invariant forall i, x :: 0 <= i < y && 0 <= x < size ==>
        newMap[i][x] == match slots[i][x] case Empty => Plains case Holds(b) => b
    {
      var row := [];
      var x := 0;
      while x < size
        invariant 0 <= x <= size
        invariant |row| == x
        invariant forall j :: 0 <= j < x ==> row[j] == match slots[y][j] case Empty => Plains case Holds(b) => b
      {
        var b := match slots[y][x] case Empty => Plains case Holds(b) => b;
        row := row + [b];
        x := x + 1;
      }
      newMap := newMap + [row];
      y := y + 1;
    }
  }

  /** Over records of the field, the cells left null by step 6 are the ones above the threshold. */
  lemma NullIsLand(elev: seq<seq<real>>, arid: seq<seq<real>>, size: nat, threshold: real,
                   slots: seq<seq<Slot>>, cells: seq<Cell>)
    requires IsGrid(slots, size, size) && IsGrid(elev, size, size)
    requires forall i :: 0 <= i < |cells| ==> InField(elev, arid, size)(cells[i])
    requires forall y, x :: 0 <= y < size && 0 <= x < size ==>
      slots[y][x] == if elev[y][x] <= threshold then Holds(Ocean) else Empty
    ensures Filter(cells, Unassigned(slots)) == Filter(cells, IsLand(threshold))
  {
    forall i | 0 <= i < |cells|
      ensures Unassigned(slots)(cells[i]) == IsLand(threshold)(cells[i])
    {
      assert InField(elev, arid, size)(cells[i]);
    }
    FilterAgree(cells, Unassigned(slots), IsLand(threshold));
  }

  /** Selecting the cells step 6 left null selects the land records above the threshold. */
  lemma LandIsRanked(elev: seq<seq<real>>, arid: seq<seq<real>>, size: nat, oceanRatio: real, desertRatio: real,
                     slots: seq<seq<Slot>>)
    requires Fields(elev, arid, size) && size > 0 && 0.0 <= oceanRatio < 1.0
    requires IsGrid(slots, size, size)
    requires forall y, x :: 0 <= y < size && 0 <= x < size ==>
      slots[y][x] == if elev[y][x] <= Rank(elev, arid, size, oceanRatio, desertRatio).threshold then Holds(Ocean) else Empty
    ensures var rk := Rank(elev, arid, size, oceanRatio, desertRatio);
      SortBy(Filter(rk.byElevation, Unassigned(slots)), DrynessRank) == rk.land
  {
    var rk := Rank(elev, arid, size, oceanRatio, desertRatio);
    ByElevationInField(elev, arid, size, oceanRatio, desertRatio);
    NullIsLand(elev, arid, size, rk.threshold, slots, rk.byElevation);
  }

  /** A map that gives every cell the biome of the ranking is the first map. */
  lemma IsClassified(elev: seq<seq<real>>, arid: seq<seq<real>>, size: nat, oceanRatio: real, desertRatio: real, g: BiomeMap)
    requires Fields(elev, arid, size) && size > 0 && 0.0 <= oceanRatio < 1.0
    requires IsGrid(g, size, size)
    requires forall y, x :: 0 <= y < size && 0 <= x < size ==>
      g[y][x] == CellClass(Rank(elev, arid, size, oceanRatio, desertRatio), elev[y][x], EntryAt(elev, arid, size, x, y))
    ensures g == Classified(elev, arid, size, oceanRatio, desertRatio)
  {
    var expected := Classified(elev, arid, size, oceanRatio, desertRatio);
    forall y | 0 <= y < size ensures g[y] == expected[y] {
      forall x | 0 <= x < size ensures g[y][x] == expected[y][x] {
        ClassifiedAt(elev, arid, size, oceanRatio, desertRatio, x, y);
      }
    }
  }

  /** Steps 5 to 7: the ocean threshold, the ocean cells, and the land records by aridity. */
  method RankLand(elev: seq<seq<real>>, arid: seq<seq<real>>, size: nat, oceanRatio: real, ghost desertRatio: real)
    returns (oceanThreshold: real, slots: seq<seq<Slot>>, landCells: seq<Cell>)
    requires Fields(elev, arid, size) && size > 0 && 0.0 <= oceanRatio < 1.0
    ensures oceanThreshold == Rank(elev, arid, size, oceanRatio, desertRatio).threshold
    ensures landCells == Rank(elev, arid, size, oceanRatio, desertRatio).land
    ensures IsGrid(slots, size, size)
    ensures forall y, x :: 0 <= y < size && 0 <= x < size ==>
      slots[y][x] == if elev[y][x] <= oceanThreshold then Holds(Ocean) else Empty
  {
    ghost var rk := Rank(elev, arid, size, oceanRatio, desertRatio);
    var sortedElevations := Flatten(elev, arid, size);
    sortedElevations := SortBy(sortedElevations, ElevationOf);
    oceanThreshold := sortedElevations[ThresholdIndex(|sortedElevations|, oceanRatio)].elevation;
    assert sortedElevations == rk.byElevation && oceanThreshold == rk.threshold;
    slots := AssignOcean(elev, size, oceanThreshold);
    LandIsRanked(elev, arid, size, oceanRatio, desertRatio, slots);
    landCells := Filter(sortedElevations, Unassigned(slots));
    landCells := SortBy(landCells, DrynessRank);
  }

  /**
   * Steps 5 to 9 of `generate`. The source indexes the sorted list at
   * floor(cells * oceanRatio), so the ratio lies in [0, 1) for that read to
   * find a record.
   */
  method Classify(elev: seq<seq<real>>, arid: seq<seq<real>>, size: nat, oceanRatio: real, desertRatio: real)
    returns (newMap: BiomeMap)
    requires Fields(elev, arid, size) && size > 0 && 0.0 <= oceanRatio < 1.0
    ensures newMap == Classified(elev, arid, size, oceanRatio, desertRatio)
  {
    var oceanThreshold, slots, landCells := RankLand(elev, arid, size, oceanRatio, desertRatio);
    ghost var rk := Rank(elev, arid, size, oceanRatio, desertRatio);
    var desertCellCount := DesertQuota(size, desertRatio);
    var deserts := Max(0, Min(desertCellCount, |landCells|));
    assert deserts == rk.desertCount;
    assert forall i :: 0 <= i < |landCells| ==> LandOf(elev, arid, size, oceanThreshold)(landCells[i]) by {
      LandInField(elev, arid, size, oceanRatio, desertRatio);
    }
    slots := AssignDesert(elev, arid, size, oceanThreshold, landCells, deserts, slots);
    newMap := AssignPlains(slots, size);
    FilledIsClassified(elev, arid, size, oceanRatio, desertRatio, slots, newMap);
  }

  /** Filling the cells steps 6 and 8 left null with plains gives the first map. */
  lemma FilledIsClassified(elev: seq<seq<real>>, arid: seq<seq<real>>, size: nat, oceanRatio: real, desertRatio: real,
                           slots: seq<seq<Slot>>, g: BiomeMap)
    requires Fields(elev, arid, size) && size > 0 && 0.0 <= oceanRatio < 1.0
    requires IsGrid(slots, size, size) && IsGrid(g, size, size)
    requires var rk := Rank(elev, arid, size, oceanRatio, desertRatio);
      forall y, x :: 0 <= y < size && 0 <= x < size ==>
        slots[y][x] == if elev[y][x] <= rk.threshold then Holds(Ocean)
                       else if EntryAt(elev, arid, size, x, y) in rk.land[..rk.desertCount] then Holds(Desert)
                       else Empty
    requires forall y, x :: 0 <= y < size && 0 <= x < size ==>
      g[y][x] == match slots[y][x] case Empty => Plains case Holds(b) => b
    ensures g == Classified(elev, arid, size, oceanRatio, desertRatio)
  {
    var rk := Rank(elev, arid, size, oceanRatio, desertRatio);
    forall y, x | 0 <= y < size && 0 <= x < size
      ensures g[y][x] == CellClass(rk, elev[y][x], EntryAt(elev, arid, size, x, y))
    {
      FilledAt(rk, elev[y][x], EntryAt(elev, arid, size, x, y), slots[y][x], g[y][x]);
    }
    IsClassified(elev, arid, size, oceanRatio, desertRatio, g);
  }

  lemma FilledAt(rk: Ranking, e: real, c: Cell, slot: Slot, b: Biome)
    requires rk.desertCount <= |rk.land|
    requires slot == if e <= rk.threshold then Holds(Ocean) else if c in rk.land[..rk.desertCount] then Holds(Desert) else Empty
    requires b == match slot case Empty => Plains case Holds(h) => h
    ensures b == CellClass(rk, e, c)
  {
  }

  /** A record of the field is the record of its own cell. */
  lemma BelongsIsEntry(elev: seq<seq<real>>, arid: seq<seq<real>>, size: nat, c: Cell)
    requires Fields(elev, arid, size) && Belongs(elev, arid, size, c)
    ensures c == EntryAt(elev, arid, size, c.x, c.y)
  {
  }

  /** Every cell above the threshold has its record among the land records. */
  lemma LandContains(elev: seq<seq<real>>, arid: seq<seq<real>>, size: nat, oceanRatio: real, desertRatio: real, x: nat, y: nat)
    requires Fields(elev, arid, size) && size > 0 && 0.0 <= oceanRatio < 1.0 && x < size && y < size
    requires elev[y][x] > Rank(elev, arid, size, oceanRatio, desertRatio).threshold
    ensures EntryAt(elev, arid, size, x, y) in Rank(elev, arid, size, oceanRatio, desertRatio).land
  {
    var rk := Rank(elev, arid, size, oceanRatio, desertRatio);
    var c := EntryAt(elev, arid, size, x, y);
    assert c in rk.byElevation by {
      CellsCoverAt(elev, arid, size, size, x, y);
      assert c in multiset(AllCells(elev, arid, size));
    }
    InSortedFilter(rk.byElevation, IsLand(rk.threshold), DrynessRank, c);
  }

  /** A record up to the threshold position of the elevation order is an ocean cell. */
  lemma LowIsOcean(elev: seq<seq<real>>, arid: seq<seq<real>>, size: nat, oceanRatio: real, desertRatio: real, i: nat)
    requires Fields(elev, arid, size) && size > 0 && 0.0 <= oceanRatio < 1.0
    requires var rk := Rank(elev, arid, size, oceanRatio, desertRatio);
      i <= ThresholdIndex(|rk.byElevation|, oceanRatio)
    ensures var rk := Rank(elev, arid, size, oceanRatio, desertRatio);
      AtBiome(Classified(elev, arid, size, oceanRatio, desertRatio), Ocean)(rk.byElevation[i])
  {
    var rk := Rank(elev, arid, size, oceanRatio, desertRatio);
    var c := rk.byElevation[i];
    assert InField(elev, arid, size)(c) by {
      ByElevationInField(elev, arid, size, oceanRatio, desertRatio);
    }
    BelongsIsEntry(elev, arid, size, c);
    SortedIndex(rk.byElevation, ElevationOf, i, ThresholdIndex(|rk.byElevation|, oceanRatio));
    ClassifiedAt(elev, arid, size, oceanRatio, desertRatio, c.x, c.y);
  }

  lemma OceanAtLeastRanked(elev: seq<seq<real>>, arid: seq<seq<real>>, size: nat, oceanRatio: real, desertRatio: real)
    requires Fields(elev, arid, size) && size > 0 && 0.0 <= oceanRatio < 1.0
    ensures var rk := Rank(elev, arid, size, oceanRatio, desertRatio);
      Count(Classified(elev, arid, size, oceanRatio, desertRatio), Ocean) >= ThresholdIndex(|rk.byElevation|, oceanRatio) + 1
  {
    var g := Classified(elev, arid, size, oceanRatio, desertRatio);
    var rk := Rank(elev, arid, size, oceanRatio, desertRatio);
    var idx := ThresholdIndex(|rk.byElevation|, oceanRatio);
    assert CountWhere(rk.byElevation, AtBiome(g, Ocean)) >= idx + 1 by {
      forall i | 0 <= i < idx + 1 ensures AtBiome(g, Ocean)(rk.byElevation[i]) {
        LowIsOcean(elev, arid, size, oceanRatio, desertRatio, i);
      }
      CountWherePrefix(rk.byElevation, idx + 1, AtBiome(g, Ocean));
    }
    CountWherePerm(rk.byElevation, AllCells(elev, arid, size), AtBiome(g, Ocean));
    CountByCells(elev, arid, size, g, Ocean);
  }

  /**
   * At least floor(cells * oceanRatio) + 1 cells are ocean, cells being the
   * size * size records (CellsLength): every record up to the threshold
   * position of the elevation order lies at or below it.
   */
  lemma OceanAtLeast(elev: seq<seq<real>>, arid: seq<seq<real>>, size: nat, oceanRatio: real, desertRatio: real)
    requires Fields(elev, arid, size) && size > 0 && 0.0 <= oceanRatio < 1.0
    ensures Count(Classified(elev, arid, size, oceanRatio, desertRatio), Ocean)
         >= ThresholdIndex(|AllCells(elev, arid, size)|, oceanRatio) + 1
  {
    OceanAtLeastRanked(elev, arid, size, oceanRatio, desertRatio);
  }

  /** A record of the field counts as desert exactly when it is one of the chosen land records. */
  lemma DesertIsChosen(elev: seq<seq<real>>, arid: seq<seq<real>>, size: nat, oceanRatio: real, desertRatio: real, c: Cell)
    requires Fields(elev, arid, size) && size > 0 && 0.0 <= oceanRatio < 1.0
    requires Belongs(elev, arid, size, c)
    ensures var g := Classified(elev, arid, size, oceanRatio, desertRatio);
      var rk := Rank(elev, arid, size, oceanRatio, desertRatio);
      && AtBiome(g, Desert)(c) == InSeq(rk.land[..rk.desertCount])(c)
      && AtBiome(g, Ocean)(c) == Not(IsLand(rk.threshold))(c)
  {
    var rk := Rank(elev, arid, size, oceanRatio, desertRatio);
    BelongsIsEntry(elev, arid, size, c);
    ClassifiedAt(elev, arid, size, oceanRatio, desertRatio, c.x, c.y);
    if c in rk.land[..rk.desertCount] {
      var j :| 0 <= j < rk.desertCount && rk.land[j] == c;
      LandInField(elev, arid, size, oceanRatio, desertRatio);
      assert LandOf(elev, arid, size, rk.threshold)(rk.land[j]);
    }
  }

  /** Over the records of all cells, "is desert" and "is a chosen land record" select the same records. */
  lemma DesertsAgree(elev: seq<seq<real>>, arid: seq<seq<real>>, size: nat, oceanRatio: real, desertRatio: real)
    requires Fields(elev, arid, size) && size > 0 && 0.0 <= oceanRatio < 1.0
    ensures var rk := Rank(elev, arid, size, oceanRatio, desertRatio);
      CountWhere(AllCells(elev, arid, size), AtBiome(Classified(elev, arid, size, oceanRatio, desertRatio), Desert))
      == CountWhere(AllCells(elev, arid, size), InSeq(rk.land[..rk.desertCount]))
  {
    var g := Classified(elev, arid, size, oceanRatio, desertRatio);
    var rk := Rank(elev, arid, size, oceanRatio, desertRatio);
    var all := AllCells(elev, arid, size);
    var deserts := rk.land[..rk.desertCount];
    CellsBelong(elev, arid, size, size);
    forall i | 0 <= i < |all| ensures AtBiome(g, Desert)(all[i]) == InSeq(deserts)(all[i]) {
      DesertIsChosen(elev, arid, size, oceanRatio, desertRatio, all[i]);
    }
    CountWhereAgree(all, AtBiome(g, Desert), InSeq(deserts));
  }

  /** Every chosen land record is the record of a cell. */
  lemma DesertsInCells(elev: seq<seq<real>>, arid: seq<seq<real>>, size: nat, oceanRatio: real, desertRatio: real)
    requires Fields(elev, arid, size) && size > 0 && 0.0 <= oceanRatio < 1.0
    ensures var rk := Rank(elev, arid, size, oceanRatio, desertRatio);
      forall i :: 0 <= i < rk.desertCount ==> rk.land[i] in AllCells(elev, arid, size)
  {
    var rk := Rank(elev, arid, size, oceanRatio, desertRatio);
    LandInField(elev, arid, size, oceanRatio, desertRatio);
    forall i | 0 <= i < rk.desertCount ensures rk.land[i] in AllCells(elev, arid, size) {
      assert LandOf(elev, arid, size, rk.threshold)(rk.land[i]);
      BelongsIsEntry(elev, arid, size, rk.land[i]);
      CellsCoverAt(elev, arid, size, size, rk.land[i].x, rk.land[i].y);
    }
  }

  /** The desert cells are the chosen land records. */
  lemma DesertCountIsChosen(elev: seq<seq<real>>, arid: seq<seq<real>>, size: nat, oceanRatio: real, desertRatio: real)
    requires Fields(elev, arid, size) && size > 0 && 0.0 <= oceanRatio < 1.0
    ensures Count(Classified(elev, arid, size, oceanRatio, desertRatio), Desert)
         == Rank(elev, arid, size, oceanRatio, desertRatio).desertCount
  {
    var g := Classified(elev, arid, size, oceanRatio, desertRatio);
    var rk := Rank(elev, arid, size, oceanRatio, desertRatio);
    var all := AllCells(elev, arid, size);
    var deserts := rk.land[..rk.desertCount];
    DesertsAgree(elev, arid, size, oceanRatio, desertRatio);
    assert forall i :: 0 <= i < |deserts| ==> deserts[i] in all by {
      DesertsInCells(elev, arid, size, oceanRatio, desertRatio);
    }
    assert NoDup(deserts) by {
      LandNoDup(elev, arid, size, oceanRatio, desertRatio);
    }
    CellsNoDup(elev, arid, size, size);
    CountMembers(all, deserts);
    CountByCells(elev, arid, size, g, Desert);
  }

  /** The land records are the cells that are not ocean. */
  lemma LandIsNotOcean(elev: seq<seq<real>>, arid: seq<seq<real>>, size: nat, oceanRatio: real, desertRatio: real)
    requires Fields(elev, arid, size) && size > 0 && 0.0 <= oceanRatio < 1.0
    ensures |Rank(elev, arid, size, oceanRatio, desertRatio).land|
         == size * size - Count(Classified(elev, arid, size, oceanRatio, desertRatio), Ocean)
  {
    var g := Classified(elev, arid, size, oceanRatio, desertRatio);
    var rk := Rank(elev, arid, size, oceanRatio, desertRatio);
    var all := AllCells(elev, arid, size);
    assert CountWhere(all, AtBiome(g, Ocean)) == CountWhere(all, Not(IsLand(rk.threshold))) by {
      CellsBelong(elev, arid, size, size);
      forall i | 0 <= i < |all| ensures AtBiome(g, Ocean)(all[i]) == Not(IsLand(rk.threshold))(all[i]) {
        DesertIsChosen(elev, arid, size, oceanRatio, desertRatio, all[i]);
      }
      CountWhereAgree(all, AtBiome(g, Ocean), Not(IsLand(rk.threshold)));
    }
    CountByCells(elev, arid, size, g, Ocean);
    CountWhereSplit(all, IsLand(rk.threshold));
    LandCount(elev, arid, size, oceanRatio, desertRatio);
    CellsLength(elev, arid, size, size);
  }

  /**
   * Exactly min(floor(size * size * desertRatio), land cells) cells are desert
   * (none when that quota is negative), the land cells being those that are
   * not ocean.
   */
  lemma DesertExact(elev: seq<seq<real>>, arid: seq<seq<real>>, size: nat, oceanRatio: real, desertRatio: real)
    requires Fields(elev, arid, size) && size > 0 && 0.0 <= oceanRatio < 1.0
    ensures var g := Classified(elev, arid, size, oceanRatio, desertRatio);
      Count(g, Desert) == Max(0, Min(DesertQuota(size, desertRatio), size * size - Count(g, Ocean)))
  {
    DesertCountIsChosen(elev, arid, size, oceanRatio, desertRatio);
    LandIsNotOcean(elev, arid, size, oceanRatio, desertRatio);
  }

  /** A desert cell is among the chosen land records; a plains cell is land but not chosen. */
  lemma DesertAndPlainsRecords(elev: seq<seq<real>>, arid: seq<seq<real>>, size: nat, oceanRatio: real, desertRatio: real,
                               dx: nat, dy: nat, px: nat, py: nat)
    requires Fields(elev, arid, size) && size > 0 && 0.0 <= oceanRatio < 1.0
    requires dx < size && dy < size && px < size && py < size
    requires Classified(elev, arid, size, oceanRatio, desertRatio)[dy][dx] == Desert
    requires Classified(elev, arid, size, oceanRatio, desertRatio)[py][px] == Plains
    ensures var rk := Rank(elev, arid, size, oceanRatio, desertRatio);
      && EntryAt(elev, arid, size, dx, dy) in rk.land[..rk.desertCount]
      && EntryAt(elev, arid, size, px, py) !in rk.land[..rk.desertCount]
      && EntryAt(elev, arid, size, px, py) in rk.land
  {
    ClassifiedAt(elev, arid, size, oceanRatio, desertRatio, dx, dy);
    ClassifiedAt(elev, arid, size, oceanRatio, desertRatio, px, py);
    LandContains(elev, arid, size, oceanRatio, desertRatio, px, py);
  }

  /** No plains cell is more arid than a desert cell: desert goes to the most arid land. */
  lemma DesertDriest(elev: seq<seq<real>>, arid: seq<seq<real>>, size: nat, oceanRatio: real, desertRatio: real,
                     dx: nat, dy: nat, px: nat, py: nat)
    requires Fields(elev, arid, size) && size > 0 && 0.0 <= oceanRatio < 1.0
    requires dx < size && dy < size && px < size && py < size
    requires Classified(elev, arid, size, oceanRatio, desertRatio)[dy][dx] == Desert
    requires Classified(elev, arid, size, oceanRatio, desertRatio)[py][px] == Plains
    ensures arid[py][px] <= arid[dy][dx]
  {
    var rk := Rank(elev, arid, size, oceanRatio, desertRatio);
    var d, p := EntryAt(elev, arid, size, dx, dy), EntryAt(elev, arid, size, px, py);
    DesertAndPlainsRecords(elev, arid, size, oceanRatio, desertRatio, dx, dy, px, py);
    var chosen := rk.land[..rk.desertCount];
    var id :| 0 <= id < |chosen| && chosen[id] == d;
    var ip :| 0 <= ip < |rk.land| && rk.land[ip] == p;
    assert ip >= rk.desertCount;
    SortedIndex(rk.land, DrynessRank, id, ip);
    assert DrynessRank(d) <= DrynessRank(p);
  }

  /** The first map holds no village. */
  lemma NoVillageYet(elev: seq<seq<real>>, arid: seq<seq<real>>, size: nat, oceanRatio: real, desertRatio: real)
    requires Fields(elev, arid, size) && size > 0 && 0.0 <= oceanRatio < 1.0
    ensures Count(Classified(elev, arid, size, oceanRatio, desertRatio), Village) == 0
  {
    NoVillageBy(elev, arid, size, Rank(elev, arid, size, oceanRatio, desertRatio));
  }

  lemma NoVillageBy(elev: seq<seq<real>>, arid: seq<seq<real>>, size: nat, rk: Ranking)
    requires Fields(elev, arid, size) && rk.desertCount <= |rk.land|
    ensures Count(ClassifiedBy(elev, arid, size, rk), Village) == 0
  {
    var g := ClassifiedBy(elev, arid, size, rk);
    forall y, x | 0 <= y < |g| && 0 <= x < |g[y]| ensures g[y][x] != Village {
      assert g[y] == ClassRow(elev, arid, size, rk, y);
    }
    NoVillageRows(g);
  }

  lemma {:induction false} NoVillageRows(g: BiomeMap)
    requires forall y, x :: 0 <= y < |g| && 0 <= x < |g[y]| ==> g[y][x] != Village
    ensures Count(g, Village) == 0
  {
    if g != [] {
      NoVillageRow(g[0]);
      NoVillageRows(g[1..]);
    }
  }

  lemma {:induction false} NoVillageRow(row: seq<Biome>)
    requires forall x :: 0 <= x < |row| ==> row[x] != Village
    ensures CountRow(row, Village) == 0
  {
    if row != [] {
      NoVillageRow(row[1..]);
    }
  }
}
