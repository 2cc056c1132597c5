/**
 * `_applyGaussianBlur` of MapGenerator.ts (step 10 of `generate`): the map is
 * split into one 0/1 layer per biome, the ocean, desert and plains layers are
 * blurred, and every cell that is not a village takes the biome whose blurred
 * layer is highest there. Villages keep their cells.
 */
module Smoothing {
  import opened JsNumeric
  import opened Grids
  import opened Biomes
  import opened Sorting
  import opened NoiseGenerator

  /** The value biome b's layer holds for a cell holding c. */
  function Indicator(c: Biome, b: Biome): real {
    if c == b then 1.0 else 0.0
  }

  /** The first n cells of b's layer for one row. */
  function MaskRow(row: seq<Biome>, b: Biome, n: nat): (r: seq<real>)
    requires n <= |row|
    ensures |r| == n
    ensures forall x :: 0 <= x < n ==> r[x] == Indicator(row[x], b)
  {
    seq(n, x requires 0 <= x < n => Indicator(row[x], b))
  }

  /** The layer of biome b: `oceanMap`, `desertMap`, `plainsMap` or `villageMap`. */
  function Mask(g: BiomeMap, b: Biome): (m: seq<seq<real>>)
    requires IsBiomeMap(g)
    ensures IsMap(m) && IsGrid(m, |g|, |g[0]|)
    ensures forall y :: 0 <= y < |g| ==> m[y] == MaskRow(g[y], b, |g[0]|)
    ensures forall y, x :: 0 <= y < |g| && 0 <= x < |g[0]| ==> (m[y][x] == 1.0 <==> g[y][x] == b)
    ensures forall y, x :: 0 <= y < |g| && 0 <= x < |g[0]| ==> (m[y][x] == 0.0 <==> g[y][x] != b)
  {
    seq(|g|, y requires 0 <= y < |g| => MaskRow(g[y], b, |g[0]|))
  }

  /** A layer holds only 0 and 1. */
  lemma MaskInUnit(g: BiomeMap, b: Biome)
    requires IsBiomeMap(g)
    ensures AllWithin(Mask(g, b), 0.0, 1.0)
  {
    var m := Mask(g, b);
    forall y, x | 0 <= y < |m| && 0 <= x < |m[y]| ensures 0.0 <= m[y][x] <= 1.0 {
      assert m[y] == MaskRow(g[y], b, |g[0]|);
    }
  }

  function ZeroRow(n: nat): (r: seq<real>)
    ensures |r| == n
    ensures forall x :: 0 <= x < n ==> r[x] == 0.0
  {
    seq(n, _ => 0.0)
  }

  /** The `switch` over one row: a 1 in the layer of the biome each cell holds. */
  method SeparateRow(row: seq<Biome>, height: nat) returns (ocean: seq<real>, desert: seq<real>, plains: seq<real>, village: seq<real>)
    requires height <= |row|
    ensures ocean == MaskRow(row, Ocean, height) && desert == MaskRow(row, Desert, height)
    ensures plains == MaskRow(row, Plains, height) && village == MaskRow(row, Village, height)
  {
    ocean, desert, plains, village := ZeroRow(height), ZeroRow(height), ZeroRow(height), ZeroRow(height);
    var x := 0;
    while x < height
      invariant 0 <= x <= height
      invariant |ocean| == |desert| == |plains| == |village| == height
      invariant forall i :: 0 <= i < height ==> ocean[i] == if i < x then Indicator(row[i], Ocean) else 0.0
      invariant forall i :: 0 <= i < height ==> desert[i] == if i < x then Indicator(row[i], Desert) else 0.0
      invariant forall i :: 0 <= i < height ==> plains[i] == if i < x then Indicator(row[i], Plains) else 0.0
      invariant forall i :: 0 <= i < height ==> village[i] == if i < x then Indicator(row[i], Village) else 0.0
    {
      match row[x] {
        case Ocean => ocean := ocean[x := 1.0];
        case Desert => desert := desert[x := 1.0];
        case Plains => plains := plains[x := 1.0];
        case Village => village := village[x := 1.0];
      }
      x := x + 1;
    }
    assert ocean == MaskRow(row, Ocean, height);
    assert desert == MaskRow(row, Desert, height);
    assert plains == MaskRow(row, Plains, height);
    assert village == MaskRow(row, Village, height);
  }

  /** The zero-filled `width` x `height` layers and the loops that separate the biomes into them. */
  method Separate(g: BiomeMap) returns (ocean: seq<seq<real>>, desert: seq<seq<real>>, plains: seq<seq<real>>, village: seq<seq<real>>)
    requires IsBiomeMap(g)
    ensures ocean == Mask(g, Ocean) && desert == Mask(g, Desert)
    ensures plains == Mask(g, Plains) && village == Mask(g, Village)
  {
    var width, height := |g|, |g[0]|;
    var zeros := Zeros(width, height);
    ocean, desert, plains, village := zeros, zeros, zeros, zeros;
    var y := 0;
    while y < width
      invariant 0 <= y <= width
      invariant |ocean| == |desert| == |plains| == |village| == width
      invariant forall j :: 0 <= j < y ==> ocean[j] == MaskRow(g[j], Ocean, height)
      invariant forall j :: 0 <= j < y ==> desert[j] == MaskRow(g[j], Desert, height)
      invariant forall j :: 0 <= j < y ==> plains[j] == MaskRow(g[j], Plains, height)
      invariant forall j :: 0 <= j < y ==> village[j] == MaskRow(g[j], Village, height)
    {
      var o, d, p, v := SeparateRow(g[y], height);
      ocean, desert, plains, village := ocean[y := o], desert[y := d], plains[y := p], village[y := v];
      y := y + 1;
    }
    assert ocean == Mask(g, Ocean);
    assert desert == Mask(g, Desert);
    assert plains == Mask(g, Plains);
    assert village == Mask(g, Village);
  }

  // ---------------------------------------------------------------------------
  // The vote

  /** One entry `{ biome, value }` of `values`. */
  datatype Candidate = Candidate(biome: Biome, value: real)

  /** The comparator `(a, b) => b.value - a.value` sorts ascending by this key. */
  function Descending(c: Candidate): real {
    -c.value
  }

  /**
   * `values`, sorted by the engine's stable sort, then its first entry: a
   * biome whose value is highest, among equal highest values the first
   * listed (plains before desert before ocean), and never a village.
   */
  function Vote(plains: real, desert: real, ocean: real): (b: Biome)
    ensures b == if plains >= desert && plains >= ocean then Plains
                 else if desert >= ocean then Desert
                 else Ocean
    ensures b != Village
  {
    var p, d, o := Candidate(Plains, plains), Candidate(Desert, desert), Candidate(Ocean, ocean);
    SortThree(p, d, o);
    InsertHead(d, [p]);
    InsertHead(o, Insert(d, [p], Descending));
    SortBy([p, d, o], Descending)[0].biome
  }

  /** Sorting three candidates inserts the second into the first, then the third. */
  lemma SortThree(a: Candidate, b: Candidate, c: Candidate)
    ensures SortBy([a, b, c], Descending) == Insert(c, Insert(b, [a], Descending), Descending)
  {
    var s := [a, b, c];
    assert s[..2] == [a, b] && [a, b][..1] == [a] && [a][..0] == [];
    assert SortBy([a], Descending) == [a];
  }

  /** The first entry after one insertion step. */
  lemma InsertHead(x: Candidate, s: seq<Candidate>)
    requires |s| > 0
    ensures Insert(x, s, Descending)[0] == if Descending(x) < Descending(s[0]) then x else s[0]
  {
  }

  // ---------------------------------------------------------------------------
  // The whole pass

  /** A kernel of side 2h + 1 with positive weights, as `generateGaussianKernel` builds. */
  predicate BlurKernel(k: seq<seq<real>>, h: int) {
    IsKernel(k, h) && Positive(k)
  }

  /** What `applyGaussianBlur` returns at (x, y) for the layer of b, blurring with kernel k. */
  function BlurredAt(g: BiomeMap, b: Biome, k: seq<seq<real>>, h: int, x: nat, y: nat): real
    requires IsBiomeMap(g) && BlurKernel(k, h)
    requires y < |g| && x < |g[0]|
  {
    BlurAt(Mask(g, b), k, h, x, y)
  }

  /** The new biome of cell (x, y). */
  function SmoothedCell(g: BiomeMap, k: seq<seq<real>>, h: int, x: nat, y: nat): Biome
    requires IsBiomeMap(g) && BlurKernel(k, h)
    requires y < |g| && x < |g[0]|
  {
    if g[y][x] == Village then Village
    else Vote(BlurredAt(g, Plains, k, h, x, y), BlurredAt(g, Desert, k, h, x, y), BlurredAt(g, Ocean, k, h, x, y))
  }

  function SmoothedRow(g: BiomeMap, k: seq<seq<real>>, h: int, y: nat): (row: seq<Biome>)
    requires IsBiomeMap(g) && BlurKernel(k, h) && y < |g|
    ensures |row| == |g[0]|
    ensures forall x :: 0 <= x < |g[0]| ==> row[x] == SmoothedCell(g, k, h, x, y)
  {
    seq(|g[0]|, x requires 0 <= x < |g[0]| => SmoothedCell(g, k, h, x, y))
  }

  /** The map `_applyGaussianBlur` returns when its blur uses kernel k. */
  function Smoothed(g: BiomeMap, k: seq<seq<real>>, h: int): (r: BiomeMap)
    requires IsBiomeMap(g) && BlurKernel(k, h)
    ensures IsGrid(r, |g|, |g[0]|)
    ensures forall y :: 0 <= y < |g| ==> r[y] == SmoothedRow(g, k, h, y)
  {
    seq(|g|, y requires 0 <= y < |g| => SmoothedRow(g, k, h, y))
  }

  /** The vote of one cell: a village stays, any other cell takes the winner of `values`. */
  function CellVote(village: real, plains: real, desert: real, ocean: real): Biome {
    if village == 1.0 then Village else Vote(plains, desert, ocean)
  }

  /** The vote loop over one row, given that row of the village layer and of the three blurred layers. */
  method VoteRow(villageRow: seq<real>, plainsRow: seq<real>, desertRow: seq<real>, oceanRow: seq<real>)
    returns (row: seq<Biome>)
    requires |plainsRow| == |desertRow| == |oceanRow| == |villageRow|
    ensures |row| == |villageRow|
    ensures forall x :: 0 <= x < |row| ==> row[x] == CellVote(villageRow[x], plainsRow[x], desertRow[x], oceanRow[x])
  {
    row := [];
    var x := 0;
    while x < |villageRow|
      invariant 0 <= x <= |villageRow|
      invariant |row| == x
      invariant forall i :: 0 <= i < x ==> row[i] == CellVote(villageRow[i], plainsRow[i], desertRow[i], oceanRow[i])
    {
      if villageRow[x] == 1.0 {
        row := row + [Village];
      } else {
        var values := [Candidate(Plains, plainsRow[x]), Candidate(Desert, desertRow[x]), Candidate(Ocean, oceanRow[x])];
        values := SortBy(values, Descending);
        row := row + [values[0].biome];
      }
      x := x + 1;
    }
  }

  /** `layer` is the blurred layer of b in g: what `applyGaussianBlur` returns for it. */
  ghost predicate BlurredLayer(layer: seq<seq<real>>, g: BiomeMap, b: Biome, k: seq<seq<real>>, h: int)
    requires IsBiomeMap(g) && BlurKernel(k, h)
  {
    && IsGrid(layer, |g|, |g[0]|)
    && forall y, x :: 0 <= y < |g| && 0 <= x < |g[0]| ==> layer[y][x] == BlurredAt(g, b, k, h, x, y)
  }

  /** The four maps the vote reads: the village layer of g and the blurred plains, desert and ocean layers. */
  ghost predicate VoteInputs(g: BiomeMap, k: seq<seq<real>>, h: int, villageMap: seq<seq<real>>,
                             blurredPlains: seq<seq<real>>, blurredDesert: seq<seq<real>>, blurredOcean: seq<seq<real>>)
    requires IsBiomeMap(g) && BlurKernel(k, h)
  {
    && villageMap == Mask(g, Village)
    && BlurredLayer(blurredPlains, g, Plains, k, h)
    && BlurredLayer(blurredDesert, g, Desert, k, h)
    && BlurredLayer(blurredOcean, g, Ocean, k, h)
  }

  /** Row y the vote loop builds from the layers of g is the smoothed row y. */
  lemma VotedRowIsSmoothed(g: BiomeMap, k: seq<seq<real>>, h: int, y: nat, row: seq<Biome>, villageMap: seq<seq<real>>,
                           blurredPlains: seq<seq<real>>, blurredDesert: seq<seq<real>>, blurredOcean: seq<seq<real>>)
    requires IsBiomeMap(g) && BlurKernel(k, h) && y < |g|
    requires VoteInputs(g, k, h, villageMap, blurredPlains, blurredDesert, blurredOcean)
    requires |row| == |g[0]|
    requires forall x :: 0 <= x < |row| ==>
      row[x] == CellVote(villageMap[y][x], blurredPlains[y][x], blurredDesert[y][x], blurredOcean[y][x])
    ensures row == SmoothedRow(g, k, h, y)
  {
    forall x | 0 <= x < |row| ensures row[x] == SmoothedCell(g, k, h, x, y) {
      assert villageMap[y] == MaskRow(g[y], Village, |g[0]|);
      assert villageMap[y][x] == Indicator(g[y][x], Village);
    }
  }

  /** Four layers of one shape, as the vote loop reads them. */
  predicate SameLayers(villageMap: seq<seq<real>>, plains: seq<seq<real>>, desert: seq<seq<real>>, ocean: seq<seq<real>>) {
    && |plains| == |villageMap| && |desert| == |villageMap| && |ocean| == |villageMap|
    && forall y :: 0 <= y < |villageMap| ==>
         |plains[y]| == |villageMap[y]| && |desert[y]| == |villageMap[y]| && |ocean[y]| == |villageMap[y]|
  }

  /** m holds, cell by cell, the vote of the four layers. */
  predicate Voted(m: BiomeMap, villageMap: seq<seq<real>>, plains: seq<seq<real>>, desert: seq<seq<real>>, ocean: seq<seq<real>>)
    requires SameLayers(villageMap, plains, desert, ocean)
  {
    && |m| == |villageMap|
    && forall y :: 0 <= y < |villageMap| ==>
         && |m[y]| == |villageMap[y]|
         && forall x :: 0 <= x < |villageMap[y]| ==>
              m[y][x] == CellVote(villageMap[y][x], plains[y][x], desert[y][x], ocean[y][x])
  }

  /** The row loop of the vote over the village layer and the three blurred layers. */
  method VoteRows(villageMap: seq<seq<real>>, blurredPlains: seq<seq<real>>, blurredDesert: seq<seq<real>>, blurredOcean: seq<seq<real>>)
    returns (newMap: BiomeMap)
    requires SameLayers(villageMap, blurredPlains, blurredDesert, blurredOcean)
    ensures Voted(newMap, villageMap, blurredPlains, blurredDesert, blurredOcean)
  {
    newMap := [];
    var y := 0;
    while y < |villageMap|
      invariant 0 <= y <= |villageMap|
      invariant |newMap| == y
      invariant forall j :: 0 <= j < y ==>
        && |newMap[j]| == |villageMap[j]|
        && forall x :: 0 <= x < |villageMap[j]| ==>
             newMap[j][x] == CellVote(villageMap[j][x], blurredPlains[j][x], blurredDesert[j][x], blurredOcean[j][x])
    {
      var row := VoteRow(villageMap[y], blurredPlains[y], blurredDesert[y], blurredOcean[y]);
      newMap := newMap + [row];
      y := y + 1;
    }
  }

  /** The vote of the village layer and the blurred layers of g is the smoothed map. */
  lemma VotedIsSmoothed(g: BiomeMap, k: seq<seq<real>>, h: int, m: BiomeMap, villageMap: seq<seq<real>>,
                        blurredPlains: seq<seq<real>>, blurredDesert: seq<seq<real>>, blurredOcean: seq<seq<real>>)
    requires IsBiomeMap(g) && BlurKernel(k, h)
    requires VoteInputs(g, k, h, villageMap, blurredPlains, blurredDesert, blurredOcean)
    requires SameLayers(villageMap, blurredPlains, blurredDesert, blurredOcean)
    requires Voted(m, villageMap, blurredPlains, blurredDesert, blurredOcean)
    ensures m == Smoothed(g, k, h)
  {
    forall y | 0 <= y < |g| ensures m[y] == SmoothedRow(g, k, h, y) {
      VotedRowIsSmoothed(g, k, h, y, m[y], villageMap, blurredPlains, blurredDesert, blurredOcean);
    }
  }

  /**
   * `_applyGaussianBlur(map, kernelSize)`. The source reads `map[0]`, so the
   * map has a row; the blur it calls needs an odd kernel size.
   */
  method ApplyBiomeBlur(g: BiomeMap, kernelSize: nat, lib: MathLib) returns (newMap: BiomeMap)
    requires ExpPositive(lib) && IsBiomeMap(g) && kernelSize % 2 == 1
    ensures newMap == Smoothed(g, Kernel(lib, kernelSize, 1.0), kernelSize / 2)
  {
    ghost var k, h := Kernel(lib, kernelSize, 1.0), kernelSize / 2;
    var oceanMap, desertMap, plainsMap, villageMap := Separate(g);
    var blurredOcean := ApplyGaussianBlur(oceanMap, kernelSize, lib);
    var blurredDesert := ApplyGaussianBlur(desertMap, kernelSize, lib);
    var blurredPlains := ApplyGaussianBlur(plainsMap, kernelSize, lib);
    newMap := VoteRows(villageMap, blurredPlains, blurredDesert, blurredOcean);
    VotedIsSmoothed(g, k, h, newMap, villageMap, blurredPlains, blurredDesert, blurredOcean);
  }

  // ---------------------------------------------------------------------------
  // What the pass promises

  /** A cell is a village afterwards exactly when it was one before. */
  lemma SmoothedVillage(g: BiomeMap, k: seq<seq<real>>, h: int, x: nat, y: nat)
    requires IsBiomeMap(g) && BlurKernel(k, h)
    requires y < |g| && x < |g[0]|
    ensures Smoothed(g, k, h)[y][x] == Village <==> g[y][x] == Village
  {
    assert Smoothed(g, k, h)[y][x] == SmoothedCell(g, k, h, x, y);
  }

  /**
   * A cell that is not a village takes a biome whose blurred layer is highest
   * there, ties going to plains, then desert, then ocean.
   */
  lemma SmoothedIsArgmax(g: BiomeMap, k: seq<seq<real>>, h: int, x: nat, y: nat)
    requires IsBiomeMap(g) && BlurKernel(k, h)
    requires y < |g| && x < |g[0]| && g[y][x] != Village
    ensures var p, d, o := BlurredAt(g, Plains, k, h, x, y), BlurredAt(g, Desert, k, h, x, y), BlurredAt(g, Ocean, k, h, x, y);
      Smoothed(g, k, h)[y][x] == if p >= d && p >= o then Plains else if d >= o then Desert else Ocean
  {
    assert Smoothed(g, k, h)[y][x] == SmoothedCell(g, k, h, x, y);
  }

  /** Each blurred layer lies in [0, 1]: the values the vote compares are weighted shares of the neighbourhood. */
  lemma BlurredInUnit(g: BiomeMap, b: Biome, k: seq<seq<real>>, h: int, x: nat, y: nat)
    requires IsBiomeMap(g) && BlurKernel(k, h)
    requires y < |g| && x < |g[0]|
    ensures 0.0 <= BlurredAt(g, b, k, h, x, y) <= 1.0
  {
    MaskInUnit(g, b);
    BlurOfMaskInUnit(Mask(g, b), k, h, x, y);
  }

  /** Where a whole neighbourhood holds one biome other than village, the cell takes that biome. */
  lemma SmoothedUniform(g: BiomeMap, k: seq<seq<real>>, h: int, x: nat, y: nat, b: Biome)
    requires IsBiomeMap(g) && BlurKernel(k, h)
    requires y < |g| && x < |g[0]| && b != Village
    requires forall ny, nx :: (0 <= ny < |g| && 0 <= nx < |g[0]| && x - h <= nx <= x + h && y - h <= ny <= y + h)
               ==> g[ny][nx] == b
    ensures Smoothed(g, k, h)[y][x] == b
  {
    forall c: Biome ensures BlurredAt(g, c, k, h, x, y) == Indicator(b, c) {
      var m := Mask(g, c);
      forall ny, nx | 0 <= ny < |m| && 0 <= nx < |m[ny]| && x - h <= nx <= x + h && y - h <= ny <= y + h
        ensures Indicator(b, c) <= m[ny][nx] <= Indicator(b, c)
      {
        assert m[ny] == MaskRow(g[ny], c, |g[0]|);
      }
      assert NeighbourhoodWithin(m, h, x, y, Indicator(b, c), Indicator(b, c));
    }
    SmoothedIsArgmax(g, k, h, x, y);
  }

  /** The pass creates no village and removes none: a map without villages stays without. */
  lemma SmoothedKeepsVillages(g: BiomeMap, k: seq<seq<real>>, h: int)
    requires IsBiomeMap(g) && BlurKernel(k, h)
    ensures Count(Smoothed(g, k, h), Village) == Count(g, Village)
  {
    var r := Smoothed(g, k, h);
    forall y, x | 0 <= y < |g| && 0 <= x < |g[y]| ensures (g[y][x] == Village) == (r[y][x] == Village) {
      SmoothedVillage(g, k, h, x, y);
    }
    CountSame(g, r, Village);
  }
}
