/**
 * The two `MapGenerator` classes as wholes: the constructor that seeds the
 * generator, and `generate`, which runs the stages of the other modules in
 * order on one shared generator.
 *
 * MapGenerator.ts: ocean centres, the two noise fields, classification, the
 * biome blur, the ocean bridges, the ocean top-up and the villages. The
 * top-up is the one written, which reads the ocean share rounded to one
 * decimal; `CorrectedPostProcessed` is the same stages with the corrected
 * top-up, which reads it unrounded.
 * MapGenerator.js: the two noise fields without centres, classification and
 * the villages (Plains only, four directions).
 *
 * Each stage is given here by the function that specifies it, so the map
 * `generate` hands to the village pass is a function of the seed, the size,
 * the ratios and the oracles; the village pass itself is random growth and
 * is described by the relation its method promises.
 */
module Pipeline {
  import opened JsNumeric
  import opened Grids
  import opened Biomes
  import opened SeededRandom
  import NG = NoiseGenerator
  import T = Terrain
  import C = Classification
  import S = Smoothing
  import B = OceanBridges
  import O = OceanTopUp
  import V = Villages

  /** The `biomeRatios` object: target percentages for ocean, desert and villages (Plains take the rest). */
  datatype BiomeRatios = BiomeRatios(ocean: real, desert: real, village: real)

  /** `this.biomeRatios[b] / 100`: a percentage as a fraction. */
  function Ratio(percent: real): real {
    percent / 100.0
  }

  /** `oceanRatio * 100`: the fraction as a percentage again, the target of the top-up. */
  function Percent(ratio: real): real {
    ratio * 100.0
  }


  // ---------------------------------------------------------------------------
  // The stages before the villages, as functions of the generator state

  /** Every centre drawn on a map with cells has a positive radius. */
  lemma CentersPositive(s: State, size: nat, n: nat)
    requires size > 0
    ensures T.PositiveRadii(T.Centers(s, size, n))
  {
    var cs := T.Centers(s, size, n);
    assert forall i :: 0 <= i < n ==> T.Placed(cs[i], size);
  }

  /**
   * Steps 1 to 3 of MapGenerator.ts from state s: the centre count, the
   * centres, then the two fields with the centre bias, and the state after
   * them.
   */
  function ModernNoise(lib: MathLib, size: nat, s: State): (n: T.Noise)
    requires size > 0
    ensures IsGrid(n.elevation, size, size) && IsGrid(n.aridity, size, size)
  {
    var t := NextState(s);
    var cs := T.Centers(t, size, T.CenterCount(t));
    CentersPositive(t, size, T.CenterCount(t));
    T.NoiseRows(lib, cs, T.ModernScales(size), size, size, Advance(s, 1 + 3 * |cs|))
  }

  /** Step 1 of MapGenerator.js from state s: the two fields, no centres. */
  function LegacyNoise(lib: MathLib, size: nat, s: State): (n: T.Noise)
    requires size > 0
    ensures IsGrid(n.elevation, size, size) && IsGrid(n.aridity, size, size)
  {
    T.NoiseRows(lib, [], T.LegacyScales(size), size, size, s)
  }

  /** The classified map for a pair of fields, with the generator state carried along. */
  function ClassifiedFrom(n: T.Noise, size: nat, oceanRatio: real, desertRatio: real): (c: Carried<BiomeMap>)
    requires size > 0 && 0.0 <= oceanRatio < 1.0 && C.Fields(n.elevation, n.aridity, size)
    ensures IsGrid(c.value, size, size) && c.state == n.state
  {
    Carried(C.Classified(n.elevation, n.aridity, size, oceanRatio, desertRatio), n.state)
  }

  /** The 3 x 3 kernel of `_applyGaussianBlur(newMap, 3)` is a blur kernel of half-width 1. */
  lemma KernelOfThree(lib: MathLib)
    requires ExpPositive(lib)
    ensures S.BlurKernel(NG.Kernel(lib, 3, 1.0), 3 / 2)
  {
  }

  /**
   * Lines 175-178 of MapGenerator.ts on the classified map g from state s:
   * the biome blur with a 3 x 3 kernel, then the ocean bridges. The result
   * has the shape of g and the same villages.
   */
  function Bridged(lib: MathLib, g: BiomeMap, s: State): (c: Carried<BiomeMap>)
    requires IsBiomeMap(g) && |g[0]| > 0 && ExpPositive(lib)
    ensures IsBiomeMap(c.value) && |c.value| == |g| && |c.value[0]| == |g[0]|
    ensures Count(c.value, Village) == Count(g, Village)
  {
    KernelOfThree(lib);
    var smoothed := S.Smoothed(g, NG.Kernel(lib, 3, 1.0), 3 / 2);
    S.SmoothedKeepsVillages(g, NG.Kernel(lib, 3, 1.0), 3 / 2);
    B.ConnectedChangesOnly(smoothed, s);
    B.Connected(smoothed, s)
  }

  /**
   * Lines 175-181 of MapGenerator.ts on the classified map g from state s:
   * the blur and the bridges, then `_ensureOceanPercentage(smoothedMap,
   * oceanRatio * 100)` as written, reading the ocean share rounded to one
   * decimal (`OceanTopUp.OceanShare`).
   */
  function PostProcessed(lib: MathLib, g: BiomeMap, oceanRatio: real,
                         shuffle: (seq<O.Cell>, State) -> Shuffled<O.Cell>, s: State): (c: Carried<BiomeMap>)
    requires IsBiomeMap(g) && |g[0]| > 0 && ExpPositive(lib) && IsShuffler(shuffle)
    ensures IsGrid(c.value, |g|, |g[0]|)
  {
    var bridged := Bridged(lib, g, s);
    O.TopUp(bridged.value, O.OceanShare(bridged.value), Percent(oceanRatio), shuffle, bridged.state)
  }

  /**
   * The same stages with the corrected top-up, which reads the ocean share
   * unrounded (`OceanTopUp.EnsureOceanPercentageExact`).
   */
  function CorrectedPostProcessed(lib: MathLib, g: BiomeMap, oceanRatio: real,
                                  shuffle: (seq<O.Cell>, State) -> Shuffled<O.Cell>, s: State): (c: Carried<BiomeMap>)
    requires IsBiomeMap(g) && |g[0]| > 0 && ExpPositive(lib) && IsShuffler(shuffle)
    ensures IsGrid(c.value, |g|, |g[0]|)
  {
    var bridged := Bridged(lib, g, s);
    O.TopUp(bridged.value, O.ExactShare(bridged.value), Percent(oceanRatio), shuffle, bridged.state)
  }

  /**
   * The blur, the bridges and the top-up never make or remove a village,
   * whichever way the top-up reads the ocean share.
   */
  lemma PostProcessedKeepsVillages(lib: MathLib, g: BiomeMap, oceanRatio: real,
                                   shuffle: (seq<O.Cell>, State) -> Shuffled<O.Cell>, s: State)
    requires IsBiomeMap(g) && |g[0]| > 0 && ExpPositive(lib) && IsShuffler(shuffle)
    ensures Count(PostProcessed(lib, g, oceanRatio, shuffle, s).value, Village) == Count(g, Village)
    ensures Count(CorrectedPostProcessed(lib, g, oceanRatio, shuffle, s).value, Village) == Count(g, Village)
  {
    var bridged := Bridged(lib, g, s);
    var h := bridged.value;
    O.TopUpEffect(h, O.OceanShare(h), Percent(oceanRatio), shuffle, bridged.state);
    O.TopUpEffect(h, O.ExactShare(h), Percent(oceanRatio), shuffle, bridged.state);
  }

  /**
   * After the corrected post-processing the map is at least `oceanRatio *
   * 100` percent ocean, or it has no desert or plains left. The stages as
   * written can stop short of this (`OceanTopUp.RoundedShareFallsShort`).
   */
  lemma CorrectedPostProcessedReachesTarget(lib: MathLib, g: BiomeMap, oceanRatio: real,
                                            shuffle: (seq<O.Cell>, State) -> Shuffled<O.Cell>, s: State)
    requires IsBiomeMap(g) && |g[0]| > 0 && ExpPositive(lib) && IsShuffler(shuffle)
    ensures var r := CorrectedPostProcessed(lib, g, oceanRatio, shuffle, s).value;
      IsBiomeMap(r) && |r[0]| > 0 && (O.ExactShare(r) >= Percent(oceanRatio) || Count(r, Desert) + Count(r, Plains) == 0)
  {
    var bridged := Bridged(lib, g, s);
    var h := bridged.value;
    assert CorrectedPostProcessed(lib, g, oceanRatio, shuffle, s) == O.TopUp(h, O.ExactShare(h), Percent(oceanRatio), shuffle, bridged.state);
    O.ExactTopUpReachesTarget(h, Percent(oceanRatio), shuffle, bridged.state);
  }

  /**
   * The map MapGenerator.ts hands to `_generateVillages` (steps 1 to 12),
   * and the generator state at that point, for the ratios `oceanRatio` and
   * `desertRatio` computed at lines 119-120.
   */
  function BeforeVillages(lib: MathLib, size: nat, oceanRatio: real, desertRatio: real,
                          shuffle: (seq<O.Cell>, State) -> Shuffled<O.Cell>, s: State): (c: Carried<BiomeMap>)
    requires size > 0 && 0.0 <= oceanRatio < 1.0 && ExpPositive(lib) && IsShuffler(shuffle)
    ensures IsGrid(c.value, size, size)
  {
    var classified := ClassifiedFrom(ModernNoise(lib, size, s), size, oceanRatio, desertRatio);
    PostProcessed(lib, classified.value, oceanRatio, shuffle, classified.state)
  }

  /** No stage before the village pass of MapGenerator.ts writes a village. */
  lemma BeforeVillagesNone(lib: MathLib, size: nat, oceanRatio: real, desertRatio: real,
                           shuffle: (seq<O.Cell>, State) -> Shuffled<O.Cell>, s: State)
    requires size > 0 && 0.0 <= oceanRatio < 1.0 && ExpPositive(lib) && IsShuffler(shuffle)
    ensures Count(BeforeVillages(lib, size, oceanRatio, desertRatio, shuffle, s).value, Village) == 0
  {
    var n := ModernNoise(lib, size, s);
    var classified := ClassifiedFrom(n, size, oceanRatio, desertRatio);
    C.NoVillageYet(n.elevation, n.aridity, size, oceanRatio, desertRatio);
    PostProcessedKeepsVillages(lib, classified.value, oceanRatio, shuffle, classified.state);
  }

  /** MapGenerator.js before its village pass: classification leaves no village. */
  lemma LegacyNoVillage(lib: MathLib, size: nat, oceanRatio: real, desertRatio: real, s: State)
    requires size > 0 && 0.0 <= oceanRatio < 1.0
    ensures Count(ClassifiedFrom(LegacyNoise(lib, size, s), size, oceanRatio, desertRatio).value, Village) == 0
  {
    var n := LegacyNoise(lib, size, s);
    C.NoVillageYet(n.elevation, n.aridity, size, oceanRatio, desertRatio);
  }

  /**
   * MapGenerator.js takes exactly 40 draws per cell before its village pass,
   * 24 for the six elevation octaves and 16 for the four aridity octaves:
   * `size` rows of `40 * size` draws each.
   */
  lemma LegacyDraws(lib: MathLib, size: nat, oceanRatio: real, desertRatio: real, s: State)
    requires size > 0 && 0.0 <= oceanRatio < 1.0
    ensures ClassifiedFrom(LegacyNoise(lib, size, s), size, oceanRatio, desertRatio).state == AdvanceRuns(s, 40 * size, size)
  {
    T.LegacyRowsDraws(lib, T.LegacyScales(size), size, size, s);
  }

  /**
   * After the village pass: what `Villages.Settled` leaves of the map it was
   * given when that map had no village yet. The villages are exactly the
   * placed ones, and the ocean is untouched.
   */
  lemma SettledFromNone(pre: BiomeMap, g: BiomeMap, v: V.Variant, placed: int)
    requires V.Settled(pre, g, v, placed) && Count(pre, Village) == 0
    ensures Count(g, Village) == placed
    ensures Count(g, Ocean) == Count(pre, Ocean)
  {
    ChangesOnlyKeepsOther(pre, g, V.Eligible(v), Village, Ocean);
  }

  /**
   * What the village pass of variant v, run with `villagePercent` on the map
   * pre, leaves in g: only candidate cells turned village, `placed` of them
   * and so exactly the map's villages, the ocean untouched, at most the
   * target, grown as the clusters `Villages.Outcome` describes, and when the
   * target is missed every candidate left is a refused seed.
   */
  ghost predicate Villaged(pre: BiomeMap, g: BiomeMap, v: V.Variant, size: nat, villagePercent: real,
                           placed: int, refused: set<Pos>, clusters: seq<seq<Pos>>)
    requires IsGrid(pre, size, size)
    ensures Villaged(pre, g, v, size, villagePercent, placed, refused, clusters) ==>
      Count(g, Ocean) + Count(g, Desert) + Count(g, Plains) + placed == size * size
  {
    GridCovered(g, size);
    && IsGrid(g, size, size)
    && V.Settled(pre, g, v, placed)
    && Count(g, Village) == placed
    && Count(g, Ocean) == Count(pre, Ocean)
    && 0 <= placed <= Max(0, V.TargetVillages(size, villagePercent / 100.0))
    && (placed < V.TargetVillages(size, villagePercent / 100.0) ==> V.Covered(g, v, [], refused))
    && |refused| + |clusters| <= V.NumClusters(villagePercent / 100.0)
    && V.Outcome(pre, g, v, size, refused, clusters)
  }

  /** Every cell of a size x size map holds one of the four biomes. */
  lemma GridCovered(g: BiomeMap, size: nat)
    ensures IsGrid(g, size, size) ==>
      Count(g, Ocean) + Count(g, Desert) + Count(g, Plains) + Count(g, Village) == size * size
  {
    if IsGrid(g, size, size) {
      CoverageGrid(g, size, size);
    }
  }

  /**
   * MapGenerator.js never refuses a seed, so when its village pass misses the
   * target it has used up every Plains cell.
   */
  lemma NoPlainsLeft(pre: BiomeMap, g: BiomeMap, size: nat, villagePercent: real, placed: int, clusters: seq<seq<Pos>>)
    requires IsGrid(pre, size, size) && Villaged(pre, g, V.Legacy, size, villagePercent, placed, {}, clusters)
    requires placed < V.TargetVillages(size, villagePercent / 100.0)
    ensures Count(g, Plains) == 0
  {
    forall y, x | 0 <= y < |g| && 0 <= x < |g[y]| ensures g[y][x] != Plains {
      assert Pos(x, y) !in {};
    }
    CountAbsent(g, Plains);
  }

  /**
   * `_generateVillages(smoothedMap)` as both generators call it: the village
   * pass of variant v on a map pre that holds no village yet, drawing from
   * rng.
   */
  method Settle(pre: BiomeMap, v: V.Variant, lib: MathLib, size: nat, villagePercent: real,
                shuffle: (seq<Pos>, State) -> Shuffled<Pos>, rng: Rng)
    returns (g: BiomeMap, ghost placed: int, ghost refused: set<Pos>, ghost clusters: seq<seq<Pos>>)
    requires IsGrid(pre, size, size) && Count(pre, Village) == 0 && IsShuffler(shuffle)
    modifies rng
    ensures Villaged(pre, g, v, size, villagePercent, placed, refused, clusters)
  {
    var mapData := new V.MapData(pre);
    placed, refused, clusters := V.GenerateVillages(mapData, v, lib, size, villagePercent, shuffle, rng);
    g := mapData.cells;
    SettledFromNone(pre, g, v, placed);
  }

  // ---------------------------------------------------------------------------
  // MapGenerator.ts

  /**
   * `class MapGenerator` of MapGenerator.ts. Its four fields are set by the
   * constructor and never reassigned; the generator object they hold
   * advances with every draw.
   */
  class MapGenerator {
    const seed: int
    const size: nat
    const biomeRatios: BiomeRatios
    const rng: Rng

    constructor (seed: int, size: nat, biomeRatios: BiomeRatios)
      ensures this.seed == seed && this.size == size && this.biomeRatios == biomeRatios
      ensures fresh(rng) && rng.seed == Normalize(seed)
    {
      this.seed := seed;
      this.size := size;
      this.biomeRatios := biomeRatios;
      this.rng := new Rng(seed);
    }

    /**
     * Lines 175-181 of `generate()`: `_applyGaussianBlur(newMap, 3)`, then
     * `_connectOceanAreas`, then `_ensureOceanPercentage(smoothedMap,
     * oceanRatio * 100)` as written, all on the one generator.
     */
    method PostProcess(newMap: BiomeMap, lib: MathLib, oceanRatio: real,
                       landShuffle: (seq<O.Cell>, State) -> Shuffled<O.Cell>) returns (smoothedMap: BiomeMap)
      requires IsBiomeMap(newMap) && |newMap[0]| > 0 && ExpPositive(lib) && IsShuffler(landShuffle)
      modifies rng
      ensures Carried(smoothedMap, rng.seed) == PostProcessed(lib, newMap, oceanRatio, landShuffle, old(rng.seed))
    {
      KernelOfThree(lib);
      smoothedMap := S.ApplyBiomeBlur(newMap, 3, lib);
      ghost var blurred := smoothedMap;
      assert blurred == S.Smoothed(newMap, NG.Kernel(lib, 3, 1.0), 3 / 2);
      smoothedMap := B.ConnectOceanAreas(smoothedMap, rng);
      ghost var bridged := B.Connected(blurred, old(rng.seed));
      assert bridged == Carried(smoothedMap, rng.seed);
      assert bridged == Bridged(lib, newMap, old(rng.seed));
      smoothedMap := O.EnsureOceanPercentage(smoothedMap, Percent(oceanRatio), landShuffle, rng);
    }

    /**
     * Lines 67-172 of `generate()`: the ocean centres, the two noise fields
     * and their classification with the ratios of lines 119-120.
     */
    method DrawClassified(lib: MathLib) returns (newMap: BiomeMap)
      requires size > 0 && 0.0 <= Ratio(biomeRatios.ocean) < 1.0
      modifies rng
      ensures Carried(newMap, rng.seed)
           == ClassifiedFrom(ModernNoise(lib, size, old(rng.seed)), size, Ratio(biomeRatios.ocean), Ratio(biomeRatios.desert))
    {
      ghost var s0 := rng.seed;
      var oceanCenters := T.CreateOceanCenters(rng, size);
      assert T.PositiveRadii(oceanCenters) by {
        CentersPositive(NextState(s0), size, T.CenterCount(NextState(s0)));
      }
      var elevationNoise, aridityNoise := T.FillNoise(lib, oceanCenters, T.ModernScales(size), size, rng);
      ghost var noise := ModernNoise(lib, size, s0);
      assert noise == T.Noise(elevationNoise, aridityNoise, rng.seed);
      var oceanRatio := Ratio(biomeRatios.ocean);
      var desertRatio := Ratio(biomeRatios.desert);
      newMap := C.Classify(elevationNoise, aridityNoise, size, oceanRatio, desertRatio);
    }

    /**
     * `generate()`. The map it hands to the village pass is
     * `BeforeVillages` of the generator state at the call; the pass then
     * turns `placedVillages` Plains or Desert cells of it into villages,
     * grown as the clusters `Villages.Outcome` describes, and changes
     * nothing else. The source needs a map with cells (it reads the
     * threshold cell of the sorted list) and an ocean ratio below 1.
     */
    method Generate(lib: MathLib, landShuffle: (seq<O.Cell>, State) -> Shuffled<O.Cell>,
                    villageShuffle: (seq<Pos>, State) -> Shuffled<Pos>)
      returns (smoothedMap: BiomeMap, ghost placedVillages: int, ghost refused: set<Pos>, ghost clusters: seq<seq<Pos>>)
      requires size > 0 && 0.0 <= Ratio(biomeRatios.ocean) < 1.0 && ExpPositive(lib)
      requires IsShuffler(landShuffle) && IsShuffler(villageShuffle)
      modifies rng
      ensures Villaged(BeforeVillages(lib, size, Ratio(biomeRatios.ocean), Ratio(biomeRatios.desert), landShuffle, old(rng.seed)).value,
                       smoothedMap, V.Modern, size, biomeRatios.village, placedVillages, refused, clusters)
    {
      ghost var s0 := rng.seed;
      var newMap := DrawClassified(lib);
      smoothedMap := PostProcess(newMap, lib, Ratio(biomeRatios.ocean), landShuffle);
      ghost var pre := BeforeVillages(lib, size, Ratio(biomeRatios.ocean), Ratio(biomeRatios.desert), landShuffle, s0);
      assert smoothedMap == pre.value;
      BeforeVillagesNone(lib, size, Ratio(biomeRatios.ocean), Ratio(biomeRatios.desert), landShuffle, s0);
      smoothedMap, placedVillages, refused, clusters :=
        Settle(smoothedMap, V.Modern, lib, size, biomeRatios.village, villageShuffle, rng);
    }
  }

  // ---------------------------------------------------------------------------
  // MapGenerator.js

  /** `class MapGenerator` of MapGenerator.js, with the same fields and constructor. */
  class LegacyMapGenerator {
    const seed: int
    const size: nat
    const biomeRatios: BiomeRatios
    const rng: Rng

    constructor (seed: int, size: nat, biomeRatios: BiomeRatios)
      ensures this.seed == seed && this.size == size && this.biomeRatios == biomeRatios
      ensures fresh(rng) && rng.seed == Normalize(seed)
    {
      this.seed := seed;
      this.size := size;
      this.biomeRatios := biomeRatios;
      this.rng := new Rng(seed);
    }

    /** Lines 41-121 of `generate()`: the two noise fields and their classification. */
    method DrawClassified(lib: MathLib) returns (newMap: BiomeMap)
      requires size > 0 && 0.0 <= Ratio(biomeRatios.ocean) < 1.0
      modifies rng
      ensures Carried(newMap, rng.seed)
           == ClassifiedFrom(LegacyNoise(lib, size, old(rng.seed)), size, Ratio(biomeRatios.ocean), Ratio(biomeRatios.desert))
    {
      var elevationNoise, aridityNoise := T.FillNoise(lib, [], T.LegacyScales(size), size, rng);
      var oceanRatio := Ratio(biomeRatios.ocean);
      var desertRatio := Ratio(biomeRatios.desert);
      newMap := C.Classify(elevationNoise, aridityNoise, size, oceanRatio, desertRatio);
    }

    /**
     * `generate()` of MapGenerator.js: the classified map of the two fields
     * drawn from the generator state at the call, on which the village pass
     * turns `placedVillages` Plains cells into villages. No seed is ever
     * refused (see `NoPlainsLeft`).
     */
    method Generate(lib: MathLib, villageShuffle: (seq<Pos>, State) -> Shuffled<Pos>)
      returns (newMap: BiomeMap, ghost classified: BiomeMap, ghost placedVillages: int, ghost clusters: seq<seq<Pos>>)
      requires size > 0 && 0.0 <= Ratio(biomeRatios.ocean) < 1.0 && IsShuffler(villageShuffle)
      modifies rng
      ensures classified == ClassifiedFrom(LegacyNoise(lib, size, old(rng.seed)), size, Ratio(biomeRatios.ocean), Ratio(biomeRatios.desert)).value
      ensures Villaged(classified, newMap, V.Legacy, size, biomeRatios.village, placedVillages, {}, clusters)
    {
      ghost var s0 := rng.seed;
      newMap := DrawClassified(lib);
      classified := newMap;
      LegacyNoVillage(lib, size, Ratio(biomeRatios.ocean), Ratio(biomeRatios.desert), s0);
      ghost var refused;
      newMap, placedVillages, refused, clusters :=
        Settle(newMap, V.Legacy, lib, size, biomeRatios.village, villageShuffle, rng);
      assert refused == {};
    }
  }
}
