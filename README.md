# Seed-map biome generator, modelled in Dafny

A model of the seed-driven biome-map generator of the seed-map repository,
together with proofs about it. From an integer seed, a map size and target
percentages for ocean, desert and villages, `MapGenerator.generate()` builds a
size x size grid of four biomes: Ocean, Desert, Plains and Village. It runs
these stages in order, all driven by one Park-Miller random generator:

1. it draws ocean centres;
2. it draws two multi-octave noise fields, elevation and aridity;
3. it classifies cells by ranking them: the lowest cells become ocean, the most arid desert, the rest plains;
4. it smooths the map with a per-biome blur and re-vote;
5. it paints random ocean "land bridges";
6. it tops the ocean share up to its target, flooding coast cells first and then inland cells nearest to the sea;
7. it grows compact village clusters breadth-first, then fills up with random candidate cells.

`calculateBiomePercentage` reports each biome's share with one decimal.

The legacy twin `MapGenerator.js` runs only the noise fields, the
classification and a Plains-only, four-direction village pass.
`src/utils/index.ts` adds three pieces:

- a 32-bit Java-style string hash;
- a ten-digit seed validator;
- a band classifier over combined noise values, with keyed percentage statistics.

## Layout

| file | module | what it holds |
|---|---|---|
| js_numeric.dfy | JsNumeric | ECMAScript `%`, `ToInt32`, `Math.ceil`, `Math.round`, `Math.abs`, `Math.max`/`Math.min`; the `MathLib` oracles (`sin`, `sqrt`, `exp`) |
| grids.dfy | Grids | rectangular grids as lists of rows |
| biomes.dfy | Biomes | the four biomes, maps, counting, "changes only these cells into that" |
| sorting.dfy | Sorting | the stable numeric-comparator sort as a verified insertion sort, and filters |
| seeded_random.dfy | SeededRandom | the generator: spec functions on the integer state and class `Rng` whose `seed` field every draw overwrites |
| statistics.dfy | Statistics | `calculateBiomePercentage` of the generators (counts and one-decimal tenths) |
| noise_generator.dfy | NoiseGenerator | the two-draw hash noise, the octave sum, the Gaussian kernel and both blurs (exact, and rounded as in the .js file) |
| terrain.dfy | Terrain | ocean centres, ocean zones, and the elevation/aridity fields with their draw counts |
| classification.dfy | Classification | the threshold classification |
| smoothing.dfy | Smoothing | `_applyGaussianBlur`: masks, blur, re-vote |
| ocean_bridges.dfy | OceanBridges | `_connectOceanAreas` |
| ocean_top_up.dfy | OceanTopUp | `_ensureOceanPercentage`, with `minDistanceToOcean` and `isContinentEdge` |
| villages.dfy | Villages | `_generateVillages` of both generators on a `MapData` object updated in place |
| seed_map.dfy | SeedMap | `src/utils/index.ts` |
| map_generator.dfy | Pipeline | the two `MapGenerator` classes: constructor and `generate` |

Each imperative operation of the source is a method against a pure
specification function. The properties are proved about the function:
frame conditions, counts, bounds and orders. The methods whose `ensures`
mention `old`, `fresh` or `modifies` are the stateful ones:

- `Rng.Next`;
- the village methods on `MapData`;
- the `MapGenerator` methods.

## Where the code and its description differ

The model follows the code in each case.

- `SeededRandom`'s constructor is described as giving a state in
  [1, 2147483646]. A seed whose truncated remainder is -2147483646 gives
  state 0, and from there every draw is 0 (`SeededRandom.DegenerateSeedDrawsZero`).
- The ratio correction is described as reaching the target ocean coverage or
  exhausting the land. As written, it reads the coverage rounded to one
  decimal, and it can stop short with land left. See "## Findings". The
  pipeline of the model (`Pipeline.PostProcessed`,
  `Pipeline.MapGenerator.PostProcess`, `Pipeline.MapGenerator.Generate`)
  calls the pass as written, `OceanTopUp.EnsureOceanPercentage`, as line 181
  does. The corrected pass, `OceanTopUp.EnsureOceanPercentageExact`, is
  proved to reach the target, on its own and in a separately named
  pipeline, `Pipeline.CorrectedPostProcessed`
  (`Pipeline.CorrectedPostProcessedReachesTarget`).
- The legacy pipeline `MapGenerator.js` is described as superseded. It is
  modelled all the same, beside the canonical one.

## Model

| member | source | states |
|---|---|---|
| JsNumeric.ToInt32 | src/utils/index.ts:22-23 | the result is a signed 32-bit value congruent to the input modulo 2^32, and an input already in range is kept |
| JsNumeric.JsRem | src/utils/SeededRandom.ts:13 | ECMAScript `%`: the remainder takes the sign of the dividend and is smaller than the modulus in magnitude |
| JsNumeric.JsRemZero | src/utils/SeededRandom.ts:13 | the truncating remainder is zero exactly when the Euclidean one is, and the two agree on a non-negative dividend |
| JsNumeric.Ceil | src/utils/MapGenerator.ts:361-362 | `Math.ceil`: the least integer not below x |
| JsNumeric.Round | src/utils/MapGenerator.ts:315-316 | `Math.round`: an integer within one half of x, halves going up |
| JsNumeric.Abs | src/utils/MapGenerator.ts:311 | `Math.abs`: the value or its negation, never negative |
| JsNumeric.Max | src/utils/MapGenerator.ts:67 | `Math.max`: one of the two arguments, and at least both |
| JsNumeric.Min | src/utils/MapGenerator.ts:67 | `Math.min`: one of the two arguments, and at most both |
| SeededRandom.Normalize | src/utils/SeededRandom.ts:12-15 | the constructor's state: it is 0 exactly when the truncated remainder is -2147483646; a multiple of 2147483647 gives 2147483646; any other positive seed gives its remainder; a non-negative seed never gives 0 |
| SeededRandom.StepKeepsNonzero | src/utils/SeededRandom.ts:22 | the update `seed * 16807 % 2147483647` never reaches 0 from a nonzero state, because 16807 has an inverse modulo the prime |
| SeededRandom.NextState | src/utils/SeededRandom.ts:22 | a nonzero state stays nonzero and 0 is a fixed point |
| SeededRandom.AdvanceAdd | src/utils/SeededRandom.ts:21-24 | a draws followed by b draws leave the state of a + b draws |
| SeededRandom.AdvanceRunsCount | src/utils/SeededRandom.ts:21-24 | k runs of m draws each are m * k draws |
| SeededRandom.Value | src/utils/SeededRandom.ts:23 | every drawn value lies in [0, 1), and is positive when the state is nonzero |
| SeededRandom.ScaledDraw | src/utils/SeededRandom.ts:33 | `Math.floor(next() * k)` lies in 0..k-1 for k >= 1 |
| SeededRandom.ScaledDrawIsFloor | src/utils/SeededRandom.ts:33 | the exact integer quotient equals the floor of the real product of the drawn value and k |
| SeededRandom.IntValue | src/utils/SeededRandom.ts:32-34 | `nextInt(min, max)` lies in min..max, both included, whenever min <= max |
| SeededRandom.DrawSequence | src/utils/SeededRandom.ts:12-24 | n values, each in [0, 1) and 0 exactly when the seed's truncated remainder is -2147483646; the first is one generator step from the normalised seed, and each next value is one step from the state the previous value encodes |
| SeededRandom.DegenerateSeedDrawsZero | src/utils/SeededRandom.ts:12-14 | a seed whose truncated remainder is -2147483646 gives state 0, and every later draw is 0 |
| SeededRandom.Rng.constructor | src/utils/SeededRandom.ts:12-15 | the new generator holds the normalised seed |
| SeededRandom.Rng.Next | src/utils/SeededRandom.ts:21-24 | the state takes one step and the result is the new state over 2147483647 |
| SeededRandom.Rng.NextInt | src/utils/SeededRandom.ts:32-34 | one step, and the result is `IntValue` of the new state, within min..max |
| SeededRandom.Rng.NextScaled | src/utils/MapGenerator.ts:298 | one step, and the result is `ScaledDraw` of the new state |
| SeededRandom.Rng.Discard | src/utils/MapGenerator.ts:406 | n unused draws advance the state by exactly n steps |
| SeededRandom.Rng.SortRandomly | src/utils/MapGenerator.ts:406 | `sort(() => rng.next() - 0.5)`: the result is the shuffle's order, a permutation of the input, and the state advances by one step per comparator call |
| SeededRandom.Draws | src/utils/SeededRandom.js:10-22 | a fresh generator's first n draws are `DrawSequence(seed, n)`: they depend on the seed alone |
| Sorting.SortBy | src/utils/MapGenerator.ts:136 | the engine's sort with the comparator `key(a) - key(b)`: a permutation of its input, sorted by key |
| Sorting.InsertPerm | src/utils/MapGenerator.ts:136 | one insertion step adds exactly the inserted element to the multiset |
| Sorting.InsertSorted | src/utils/MapGenerator.ts:136 | inserting into a sorted sequence keeps it sorted |
| Sorting.Filter | src/utils/MapGenerator.ts:154 | `Array.prototype.filter`: as many elements as satisfy p, each satisfying p, all taken from the input |
| Sorting.CountWherePerm | src/utils/MapGenerator.ts:136 | counting the elements that satisfy p is unchanged by a permutation |
| Sorting.NoDupPerm | src/utils/MapGenerator.ts:601 | a permutation of a sequence without duplicates has none either |
| Sorting.NoDupSamePerm | src/utils/MapGenerator.ts:601 | two duplicate-free sequences holding the same elements are permutations of each other |
| Statistics.Tenths | src/utils/MapGenerator.ts:629-632 | `(count / total * 100).toFixed(1)` as integer tenths: within half a tenth of the exact percentage, at most 1000 when count <= total |
| Statistics.TenthsMonotone | src/utils/MapGenerator.ts:629-632 | more cells never show a smaller percentage |
| Statistics.TenthsEnds | src/utils/MapGenerator.ts:629-632 | no cells show 0.0 and all cells show 100.0 |
| Statistics.ZeroCounts | src/utils/MapGenerator.ts:618-621 | one zero count for each of the four biomes |
| Statistics.TallyRow | src/utils/MapGenerator.ts:623-625 | the inner loop adds to each biome's count the number of its cells in the row, and keeps the keys |
| Statistics.CountBiomes | src/utils/MapGenerator.ts:618-626 | the counting loops give each of the four biomes its number of cells |
| Statistics.CalculateBiomePercentage | src/utils/MapGenerator.ts:616-635 | one entry per biome, holding the `Tenths` of that biome's count over the map's cells |
| Biomes.SetCell | src/utils/MapGenerator.ts:605 | the map with one cell replaced: same shape, cell (x, y) is b, every other cell unchanged |
| Biomes.CountUpdate | src/utils/MapGenerator.ts:605-606 | writing one cell changes each biome count by at most one, exactly as the old and new biomes say |
| Biomes.Coverage | src/utils/MapGenerator.ts:616-626 | the four biome counts add up to the number of cells |
| Biomes.ChangesOnlyTrans | src/utils/MapGenerator.ts:175-184 | two passes that each only turn `from` cells into `to` together do the same |
| Biomes.ChangesOnlyKeepsOther | src/utils/MapGenerator.ts:175-184 | a biome neither turned from nor into keeps its exact count |
| Biomes.CountAbsent | src/utils/MapGenerator.ts:616-626 | a biome no cell holds has count zero |
| SeedMap.JavaHash | src/utils/index.ts:18-26 | the Java string hash, always a signed 32-bit value |
| SeedMap.HashStep | src/utils/index.ts:22-23 | one loop pass `(hash << 5) - hash + char`, then `hash & hash`, is one step `ToInt32(31 * hash + c)` of the Java recurrence |
| SeedMap.HashCode | src/utils/index.ts:18-26 | the loop computes `JavaHash` of the string, a 32-bit value |
| SeedMap.JavaHashSnoc | src/utils/index.ts:18-26 | the hash of "" is 0, and appending a code unit is one recurrence step |
| SeedMap.ValidSeed | src/utils/index.ts:65 | the result is always ten digits; a ten-digit seed is kept and any other becomes "1234567890" |
| SeedMap.ValidSeedIdempotent | src/utils/index.ts:65 | validating a validated seed changes nothing |
| SeedMap.CallbackValue | src/utils/index.ts:41-47 | the callback's value lies in (-1, 1), is non-negative for a non-negative seed number, and is the first generator draw when the seed number is a valid state |
| SeedMap.CallbackIsExact | src/utils/index.ts:45 | the product `seed * 16807` stays below 2^53 in magnitude, so the double arithmetic is exact |
| SeedMap.Combine | src/utils/index.ts:93-100 | three samples in [-1, 1] combine into a value in [0, 1] |
| SeedMap.CombineMonotone | src/utils/index.ts:93-100 | larger samples never give a smaller combined value |
| SeedMap.BandKey | src/utils/index.ts:103-118 | the key lies in 0..6 |
| SeedMap.BandKeyCountsThresholds | src/utils/index.ts:103-118 | the key is the number of thresholds 0.3, 0.4, 0.45, 0.6, 0.7, 0.85 the value reaches |
| SeedMap.BandKeyMonotone | src/utils/index.ts:103-118 | a higher value never gets a lower key |
| SeedMap.CellKey | src/utils/index.ts:87-121 | the key of cell (x, y) lies in 0..6 |
| SeedMap.KeyRow | src/utils/index.ts:87-122 | a row of `mapSize` keys, each in 0..6 and never the village key, each the number of thresholds the combined noise of its column reaches, so a column with higher noise never gets a lower key |
| SeedMap.FillRow | src/utils/index.ts:87-122 | the loop over the columns yields `KeyRow` |
| SeedMap.RowsAreKeys | src/utils/index.ts:86-123 | a map of key rows is a square grid holding each cell's key, never the village key |
| SeedMap.GenerateMapData | src/utils/index.ts:59-141 | a `mapSize` x `mapSize` grid; each cell holds the band of the combined noise of the seed's noise function at that cell; no cell is a village |
| SeedMap.TableIsKeyed | src/config/biome.ts:2-20 | the biome table has eight entries and entry k has key k |
| SeedMap.EntriesFrom | src/utils/index.ts:230-240 | one entry for every table key; other keys are dropped |
| SeedMap.KeyCounts | src/utils/index.ts:213-227 | a count for every table key and for no other key |
| SeedMap.Entries | src/utils/index.ts:205-243 | for a non-empty map, an entry for every table key and for no other key |
| SeedMap.ZeroKeyCounts | src/utils/index.ts:213-215 | every table key at 0 |
| SeedMap.TallyKeyRow | src/utils/index.ts:221-226 | the inner loop adds to each key the number of its cells among the columns read |
| SeedMap.CountKeys | src/utils/index.ts:218-227 | the counting loops give every table key its count over the n x n cells read |
| SeedMap.CalculateBiomePercentage | src/utils/index.ts:205-243 | {} for an empty map; otherwise one entry per table key, with that key's share of n * n cells |
| SeedMap.KeysCover | src/utils/index.ts:208-227 | for a square map of table keys the eight counts add up to every cell |
| NoiseGenerator.Fract | src/utils/NoiseGenerator.ts:20 | `hash - Math.floor(hash)` lies in [0, 1) and differs from the hash by an integer |
| NoiseGenerator.Jitter | src/utils/NoiseGenerator.ts:17-18 | the jitter `next() * 0.2` lies in [0, 0.2) |
| NoiseGenerator.SimplexValue | src/utils/NoiseGenerator.ts:11-21 | the sample at (x, y) lies in [0, 1) |
| NoiseGenerator.GenerateSimplexNoise | src/utils/NoiseGenerator.ts:11-21 | exactly two draws, the x jitter first, and the result is `SimplexValue` of the state at the call |
| NoiseGenerator.GeomSum | src/utils/NoiseGenerator.ts:54-55 | the amplitude sum is non-negative for a non-negative persistence, and at least 1 with one layer or more |
| NoiseGenerator.Layer | src/utils/NoiseGenerator.ts:46-53 | a layer's sample lies in [0, 1) |
| NoiseGenerator.Layers | src/utils/NoiseGenerator.ts:45-57 | n samples, each in [0, 1) |
| NoiseGenerator.WeightedSumBounds | src/utils/NoiseGenerator.ts:48-54 | samples in [0, 1) weighted by p^i sum to between 0 and the amplitude sum, strictly below it when there is a layer |
| NoiseGenerator.OctaveValue | src/utils/NoiseGenerator.ts:41-58 | `total / maxValue` is a weighted average of the layer samples: with a non-negative persistence it lies in [0, 1) |
| NoiseGenerator.SampleLayer | src/utils/NoiseGenerator.ts:46-53 | one loop pass takes exactly four draws and samples `Layer` i |
| NoiseGenerator.OctaveLoopStep | src/utils/NoiseGenerator.ts:48-56 | one pass keeps the loop invariant: total, frequency 2^i, amplitude p^i and maxValue advance together |
| NoiseGenerator.SampleOctaves | src/utils/NoiseGenerator.ts:41-57 | the loop takes 4 * octaves draws; total is the weighted sum of the layers and maxValue their weight sum |
| NoiseGenerator.GenerateOctaveNoise | src/utils/NoiseGenerator.ts:33-59 | 4 * octaves draws, the result is `OctaveValue`, and it lies in [0, 1) for a non-negative persistence |
| NoiseGenerator.RawWeight | src/utils/NoiseGenerator.ts:80-81 | the unnormalised weight is positive whenever `exp` is |
| NoiseGenerator.RawKernel | src/utils/NoiseGenerator.ts:77-85 | a size x size grid of raw weights, all positive |
| NoiseGenerator.GridSumDivided | src/utils/NoiseGenerator.ts:86-90 | dividing every weight by t divides their sum by t |
| NoiseGenerator.Kernel | src/utils/NoiseGenerator.ts:73-92 | the normalised kernel is a size x size grid of positive weights |
| NoiseGenerator.KernelSumsToOne | src/utils/NoiseGenerator.ts:86-90 | the weights of a non-empty kernel add up to 1 |
| NoiseGenerator.RawRowLoop | src/utils/NoiseGenerator.ts:79-84 | the inner loop yields the raw row and adds its sum to `sum` |
| NoiseGenerator.RawKernelLoop | src/utils/NoiseGenerator.ts:77-85 | the first loops yield `RawKernel` and its sum |
| NoiseGenerator.DivideRowAt | src/utils/NoiseGenerator.ts:87-89 | row y is divided by sum and every other row is untouched |
| NoiseGenerator.GenerateGaussianKernel | src/utils/NoiseGenerator.ts:73-92 | the nested function returns `Kernel(size, sigma)` |
| NoiseGenerator.BoxWeight | src/utils/NoiseGenerator.ts:99-109 | the weight sum of the in-map offsets is non-negative, and positive once the centre has been added |
| NoiseGenerator.BlurAt | src/utils/NoiseGenerator.ts:97-110 | a blurred cell lies between any lower and upper bound of the cells within h of it |
| NoiseGenerator.BlurOfMaskInUnit | src/utils/NoiseGenerator.ts:110 | a grid of values in [0, 1] blurs into [0, 1] |
| NoiseGenerator.BlurOfConstant | src/utils/NoiseGenerator.ts:110 | a constant grid is a fixed point of the blur |
| NoiseGenerator.RoundOfUnit | src/utils/NoiseGenerator.js:108 | `Math.round` of a value in [0, 1] is 0 or 1, and 1 exactly from 0.5 on |
| NoiseGenerator.RoundedBlurOfMask | src/utils/NoiseGenerator.js:108 | the rounding blur maps a 0/1 mask to a 0/1 mask, 1 exactly where the average reaches 0.5 |
| NoiseGenerator.RoundedBlurOfConstant | src/utils/NoiseGenerator.js:108 | a constant integer grid is a fixed point of the rounding blur |
| NoiseGenerator.BlurCell | src/utils/NoiseGenerator.ts:97-110 | the two offset loops for one cell yield `BlurAt` |
| NoiseGenerator.Zeros | src/utils/NoiseGenerator.ts:68-70 | a rows x cols grid of zeros |
| NoiseGenerator.ApplyGaussianBlur | src/utils/NoiseGenerator.ts:67-114 | a grid of the input's shape in which every cell is the kernel-weighted average of the in-map cells around it |
| NoiseGenerator.ApplyGaussianBlurRounded | src/utils/NoiseGenerator.js:63-112 | the same grid with every average passed through `Math.round` |
| Terrain.CenterCountBounds | src/utils/MapGenerator.ts:67 | one to three ocean centres, the first draw scaled to 0..2 plus one |
| Terrain.CenterFromPlaced | src/utils/MapGenerator.ts:70-74 | draws in [0, 1) give a centre inside the map with a radius of 0.3 to 0.6 of its size |
| Terrain.CenterAt | src/utils/MapGenerator.ts:70-74 | the centre drawn from the next three values lies on a map with cells, with a radius of 0.3 to 0.6 of its size |
| Terrain.Centers | src/utils/MapGenerator.ts:66-75 | n centres, every one of them on the map with a radius of 0.3 to 0.6 of its size when the map has cells |
| Terrain.CreateOceanCenters | src/utils/MapGenerator.ts:66-75 | one to three centres, exactly `Centers` of the state after the count draw, taking 1 + 3 * count draws |
| Terrain.DrawCenter | src/utils/MapGenerator.ts:70-74 | x, y and radius from the next three draws, in that order |
| Terrain.ZoneTest | src/utils/MapGenerator.ts:81-92 | the loop over the centres draws at most once per centre that reaches the cell, for every such centre when the cell stays out of the zone, and at least once when it is in |
| Terrain.OutsideAllZones | src/utils/MapGenerator.ts:81-92 | a cell no centre reaches is never in a zone and costs no draw |
| Terrain.ProbabilityRange | src/utils/MapGenerator.ts:86 | within the radius the ocean probability lies in (0.25, 0.95] |
| Terrain.ZoneStep | src/utils/MapGenerator.ts:82-91 | the test of the centres from i on, with centre i unrolled: a draw only when its radius reaches the cell, success and `break` when that draw is under the probability |
| Terrain.ZoneStart | src/utils/MapGenerator.ts:81-82 | before the first centre the loop invariant holds with no draws made |
| Terrain.ZoneAdvance | src/utils/MapGenerator.ts:82-91 | one pass of the loop keeps the invariant linking the state and draw count to the whole test |
| Terrain.ZoneExhausted | src/utils/MapGenerator.ts:82-92 | a loop run to the end of the list without success leaves the cell out of the zone after exactly the draws made |
| Terrain.TestCenter | src/utils/MapGenerator.ts:83-90 | the loop body draws exactly when the radius reaches the cell, and reports success exactly when that draw is under the probability |
| Terrain.InOceanZone | src/utils/MapGenerator.ts:81-92 | the loop's flag is `ZoneTest(..).inZone` and it takes `ZoneTest(..).draws` draws |
| Terrain.CellElevation | src/utils/MapGenerator.ts:95-104 | `next() * 0.4` in a zone (one draw), six octaves of noise at the elevation scale otherwise (24 draws) |
| Terrain.FillCell | src/utils/MapGenerator.ts:80-114 | the cell body yields `NoiseAt`'s elevation and aridity and takes its draws |
| Terrain.CellSeed | src/utils/MapGenerator.ts:80-114 | the zone test's, elevation's and aridity's draws add up to the cell's draw count |
| Terrain.NoiseAtParts | src/utils/MapGenerator.ts:80-114 | a cell's noise is its zone outcome, then the elevation from the state after the zone test, then the aridity at (x + 1000, y + 1000) |
| Terrain.FillNoiseRow | src/utils/MapGenerator.ts:79-115 | the loop over x yields `NoiseRow` and its final state |
| Terrain.FillNoise | src/utils/MapGenerator.ts:78-116 | the nested loops yield `NoiseRows`, two size x size fields, each cell drawn from where the previous one left the generator |
| Terrain.NoiseAt | src/utils/MapGenerator.ts:80-114 | a cell's elevation and aridity lie in [0, 1), an ocean-zone elevation in [0, 0.4), and the cell takes its zone test's draws, then 1 (zone) or 24 draws for the elevation, then 16 for the aridity |
| Terrain.NoiseRows | src/utils/MapGenerator.ts:78-116 | k rows of both fields, each of size cells |
| Terrain.LegacyCellDraws | src/utils/MapGenerator.js:43-60 | without ocean centres every cell draws exactly 24 + 16 values |
| Terrain.LegacyRowDraws | src/utils/MapGenerator.js:42-61 | a row of n cells draws 40 n values |
| Terrain.NoiseRowState | src/utils/MapGenerator.ts:79-115 | the state after n cells of a row is the state after n - 1 cells advanced by the draws of the last one |
| Terrain.LegacyRowsDraws | src/utils/MapGenerator.js:41-62 | k rows draw k runs of 40 size values |
| Terrain.LegacyFieldDraws | src/utils/MapGenerator.js:41-62 | the fields of a size x size map draw 40 size^2 values |
| Classification.CellsBelong | src/utils/MapGenerator.ts:124-130 | every record pushed for the first k rows is the record of a cell of those rows |
| Classification.CellsCover | src/utils/MapGenerator.ts:123-131 | every cell of the field has its record in the list |
| Classification.CellsNoDup | src/utils/MapGenerator.ts:123-131 | no record is pushed twice |
| Classification.CellsLength | src/utils/MapGenerator.ts:123-131 | k rows give k * size records |
| Classification.Flatten | src/utils/MapGenerator.ts:123-131 | the loops that push `{ x, y, elevation, aridity }` yield the records row by row |
| Classification.ThresholdIndex | src/utils/MapGenerator.ts:139-140 | floor(cells * oceanRatio) is always a position of the sorted list |
| Classification.Rank | src/utils/MapGenerator.ts:136-158 | the records of all cells sorted by elevation; the land records sorted from most to least arid; the desert count at most the land records |
| Classification.Classified | src/utils/MapGenerator.ts:143-172 | the first map is size x size |
| Classification.ClassifiedAt | src/utils/MapGenerator.ts:143-172 | each cell gets ocean at or below the threshold, desert when its record is among the chosen land records, plains otherwise |
| Classification.LandInField | src/utils/MapGenerator.ts:154-155 | every land record is the record of a cell above the threshold |
| Classification.LandNoDup | src/utils/MapGenerator.ts:154-155 | no land record occurs twice |
| Classification.LandCount | src/utils/MapGenerator.ts:154-155 | there are as many land records as cells above the threshold |
| Classification.CountByCells | src/utils/MapGenerator.ts:123-131 | counting the map cell by cell and over the records of its cells agree |
| Classification.AssignOcean | src/utils/MapGenerator.ts:143-151 | the ocean loop marks exactly the cells at or below the threshold as ocean and leaves the rest null |
| Classification.AssignDesert | src/utils/MapGenerator.ts:158-163 | the desert loop turns exactly the first `count` land records into desert |
| Classification.AssignPlains | src/utils/MapGenerator.ts:166-172 | every cell still null becomes plains, the others keep their biome |
| Classification.NullIsLand | src/utils/MapGenerator.ts:154 | over records of the field, the cells step 6 left null are the cells above the threshold |
| Classification.LandIsRanked | src/utils/MapGenerator.ts:154-155 | filtering the elevation order by "still null" and sorting by aridity gives the land records of the ranking |
| Classification.IsClassified | src/utils/MapGenerator.ts:143-172 | a map giving every cell the biome of the ranking is the first map |
| Classification.RankLand | src/utils/MapGenerator.ts:123-155 | the sorts and the ocean loop yield the ranking's threshold, its land records and the map with ocean marked |
| Classification.Classify | src/utils/MapGenerator.ts:123-172 | the statements from the record loop to the plains loop yield `Classified` |
| Classification.FilledIsClassified | src/utils/MapGenerator.ts:166-172 | filling the null cells with plains gives the first map |
| Classification.FilledAt | src/utils/MapGenerator.ts:143-172 | the three loops give a cell the biome of the ranking |
| Classification.BelongsIsEntry | src/utils/MapGenerator.ts:126-128 | a record of the field is the record of its own cell |
| Classification.LandContains | src/utils/MapGenerator.ts:154-155 | every cell above the threshold has its record among the land records |
| Classification.LowIsOcean | src/utils/MapGenerator.ts:139-151 | every record up to the threshold position of the elevation order is an ocean cell |
| Classification.OceanAtLeastRanked | src/utils/MapGenerator.ts:136-151 | at least threshold position + 1 cells are ocean |
| Classification.OceanAtLeast | src/utils/MapGenerator.ts:123-151 | at least floor(size * size * oceanRatio) + 1 cells are ocean |
| Classification.DesertIsChosen | src/utils/MapGenerator.ts:143-163 | a record counts as desert exactly when it is a chosen land record, and as ocean exactly when it is not land |
| Classification.DesertsAgree | src/utils/MapGenerator.ts:158-163 | over all records, being desert and being a chosen land record select the same records |
| Classification.DesertsInCells | src/utils/MapGenerator.ts:158-163 | every chosen land record is the record of a cell |
| Classification.DesertCountIsChosen | src/utils/MapGenerator.ts:158-163 | the desert count is the number of chosen land records |
| Classification.LandIsNotOcean | src/utils/MapGenerator.ts:143-155 | the land records are as many as the cells that are not ocean |
| Classification.DesertExact | src/utils/MapGenerator.ts:158-163 | exactly max(0, min(floor(size * size * desertRatio), land cells)) cells are desert |
| Classification.DesertAndPlainsRecords | src/utils/MapGenerator.ts:155-172 | a desert cell's record is chosen, and a plains cell's record is land but not chosen |
| Classification.DesertDriest | src/utils/MapGenerator.ts:155-163 | no plains cell is more arid than a desert cell |
| Classification.NoVillageYet | src/utils/MapGenerator.ts:143-172 | the first map holds no village |
| Classification.NoVillageRows | src/utils/MapGenerator.ts:143-172 | a map whose every cell is not a village counts no village |
| Smoothing.Mask | src/utils/MapGenerator.ts:202-233 | the layer of biome b has the map's shape and holds 1 exactly where the map holds b, 0 elsewhere |
| Smoothing.MaskInUnit | src/utils/MapGenerator.ts:202-233 | each biome layer holds only 0 and 1 |
| Smoothing.SeparateRow | src/utils/MapGenerator.ts:217-231 | the `switch` over one row puts a 1 in exactly the layer of the biome each cell holds |
| Smoothing.Separate | src/utils/MapGenerator.ts:198-233 | the four zero-filled layers after the separation loops are the masks of ocean, desert, plains and village |
| Smoothing.Vote | src/utils/MapGenerator.ts:254-261 | the first entry of `values` after the descending stable sort is a biome with the highest value, ties to plains, then desert, then ocean; never a village |
| Smoothing.SortThree | src/utils/MapGenerator.ts:260 | sorting the three candidates inserts the second into the first, then the third |
| Smoothing.InsertHead | src/utils/MapGenerator.ts:260 | after one insertion the head is the new candidate exactly when its value is strictly higher |
| Smoothing.VoteRow | src/utils/MapGenerator.ts:246-262 | the loop over one row keeps a village and gives every other cell the vote of its blurred values |
| Smoothing.VoteRows | src/utils/MapGenerator.ts:241-263 | the nested vote loops give every cell the vote of the four layers |
| Smoothing.VotedRowIsSmoothed | src/utils/MapGenerator.ts:236-262 | a row voted over the village layer and the blurred layers of the map is the smoothed row |
| Smoothing.VotedIsSmoothed | src/utils/MapGenerator.ts:236-265 | the whole voted map is the smoothed map |
| Smoothing.Smoothed | src/utils/MapGenerator.ts:236-265 | the smoothed map has the input's shape, every row the row of votes of its cells |
| Smoothing.ApplyBiomeBlur | src/utils/MapGenerator.ts:196-266 | `_applyGaussianBlur` returns the smoothed map for the Gaussian kernel of the given odd size and sigma 1 |
| Smoothing.SmoothedVillage | src/utils/MapGenerator.ts:248-250 | a cell is a village afterwards if and only if it was one before |
| Smoothing.SmoothedIsArgmax | src/utils/MapGenerator.ts:254-261 | a non-village cell takes a biome whose blurred layer is highest there, ties to plains, then desert, then ocean |
| Smoothing.BlurredInUnit | src/utils/MapGenerator.ts:236-238 | every blurred layer value lies in [0, 1] |
| Smoothing.SmoothedUniform | src/utils/MapGenerator.ts:236-261 | a cell whose whole neighbourhood holds one non-village biome keeps that biome |
| Smoothing.SmoothedKeepsVillages | src/utils/MapGenerator.ts:248-261 | the pass neither creates nor removes villages |
| OceanBridges.OceanRowSound | src/utils/MapGenerator.ts:282-286 | the ocean cells pushed for one row are ocean cells of that row, none twice, as many as the row holds |
| OceanBridges.OceanCellsSound | src/utils/MapGenerator.ts:280-287 | every listed cell of the first k rows is an ocean cell, none is listed twice, and there are as many as those rows hold |
| OceanBridges.OceanRowComplete | src/utils/MapGenerator.ts:282-286 | every ocean cell of a row has its place in the row's list |
| OceanBridges.OceanCellsComplete | src/utils/MapGenerator.ts:280-287 | every ocean cell of the first k rows has its place in the list |
| OceanBridges.OceanCellsExact | src/utils/MapGenerator.ts:280-287 | `oceanCells` holds exactly the ocean cells of the map, each once, so its length is the ocean count |
| OceanBridges.CollectOceanRow | src/utils/MapGenerator.ts:282-286 | the inner loop appends the row's ocean cells, left to right |
| OceanBridges.CollectOceanCells | src/utils/MapGenerator.ts:280-287 | the nested loops build `oceanCells` row by row |
| OceanBridges.Splice | src/utils/MapGenerator.ts:300 | `splice(i, 1)` removes one element: the length falls by one and the multiset loses exactly that element |
| OceanBridges.Picks | src/utils/MapGenerator.ts:297-301 | n picks are n elements of the list, as a sub-multiset |
| OceanBridges.ConnectPointsAreOcean | src/utils/MapGenerator.ts:293-301 | the connect points are distinct ocean cells of the map |
| OceanBridges.PicksStep | src/utils/MapGenerator.ts:298-300 | each pick takes index floor(next() * length) of what is left and splices it out |
| OceanBridges.PickingStep | src/utils/MapGenerator.ts:297-300 | one pick splices the drawn cell out of what is left and keeps the link between the picks so far, the draws made and the whole draw |
| OceanBridges.PickingDone | src/utils/MapGenerator.ts:296-301 | after the last pick the points gathered are the whole draw, one draw per point |
| OceanBridges.PickConnectPoints | src/utils/MapGenerator.ts:293-301 | the pick loop yields `Picks` and takes one draw per point |
| OceanBridges.Steps | src/utils/MapGenerator.ts:309-311 | `steps` is the Chebyshev distance of the ends: at least both coordinate differences, equal to one of them, and 0 exactly when the ends coincide |
| OceanBridges.Lerp | src/utils/MapGenerator.ts:314-316 | `Math.round(a + (b - a) * t)` is a at t = 0, b at t = 1, and between a and b for t in [0, 1] |
| OceanBridges.LinePoint | src/utils/MapGenerator.ts:313-316 | the point of step 0 is the start, that of the last step the end (also when steps is 0), and every step up to the last lies in the box the two ends span |
| OceanBridges.LineOnMap | src/utils/MapGenerator.ts:313-318 | between two cells of the map every line point is on the map, so the bounds test always passes |
| OceanBridges.SpreadRadius | src/utils/MapGenerator.ts:320 | the spread radius is 1 or 2 |
| OceanBridges.SpreadChangesOnly | src/utils/MapGenerator.ts:321-332 | the spread only turns desert and plains into ocean, and keeps the map's shape |
| OceanBridges.SpreadLocal | src/utils/MapGenerator.ts:321-325 | no cell outside the square of the radius around the point changes |
| OceanBridges.SpreadAlongRow | src/utils/MapGenerator.ts:322-331 | the inner loop turns each on-map cell of the row to ocean when its draw is under 0.8 and it is no village, one draw per on-map cell |
| OceanBridges.SpreadAround | src/utils/MapGenerator.ts:321-332 | the two spread loops yield `Spread`, drawing once per on-map cell of the square |
| OceanBridges.SpreadAt | src/utils/MapGenerator.ts:318-333 | one line step keeps the map's shape and only turns desert and plains into ocean |
| OceanBridges.Spread | src/utils/MapGenerator.ts:321-332 | the rows within the radius of the point are spread, every other row is kept |
| OceanBridges.LineSpread | src/utils/MapGenerator.ts:313-334 | drawing k steps of a line keeps the map's shape |
| OceanBridges.ConnectPair | src/utils/MapGenerator.ts:309-334 | the step loop of one line yields `LineSpread` over steps + 1 points |
| OceanBridges.LineSpreadNext | src/utils/MapGenerator.ts:313-334 | one more step of the line spreads around its next point and nothing else |
| OceanBridges.LineStep | src/utils/MapGenerator.ts:314-333 | one step computes the line point and spreads around it when it is on the map |
| OceanBridges.ConnectOceanAreas | src/utils/MapGenerator.ts:274-338 | `_connectOceanAreas` returns `Connected` of its input and leaves the generator where `Connected` says |
| OceanBridges.ConnectedUnfold | src/utils/MapGenerator.ts:290-304 | with five or more ocean cells the pass picks min(cells, 10) points, then draws every line between consecutive ones |
| OceanBridges.ConnectPoints | src/utils/MapGenerator.ts:304-335 | the loop over consecutive pairs yields `ConnectAll` |
| OceanBridges.ConnectAll | src/utils/MapGenerator.ts:304-335 | drawing the first k lines keeps the map's shape |
| OceanBridges.Connected | src/utils/MapGenerator.ts:274-338 | `_connectOceanAreas` keeps the map's shape |
| OceanBridges.LineSpreadChangesOnly | src/utils/MapGenerator.ts:313-334 | drawing a line only turns desert and plains into ocean |
| OceanBridges.LineSpreadStep | src/utils/MapGenerator.ts:313-334 | each step of a line turns only desert and plains into ocean |
| OceanBridges.LineSpreadGrow | src/utils/MapGenerator.ts:313-334 | a further step keeps the line's changes to desert and plains turned ocean |
| OceanBridges.ConnectAllChangesOnly | src/utils/MapGenerator.ts:304-335 | drawing the lines only turns desert and plains into ocean |
| OceanBridges.ConnectAllGrow | src/utils/MapGenerator.ts:304-335 | a further line keeps the changes to desert and plains turned ocean |
| OceanBridges.ConnectedChangesOnly | src/utils/MapGenerator.ts:274-338 | the pass only turns desert and plains into ocean: the village count is unchanged and the ocean count never falls |
| OceanBridges.FewOceanCellsUnchanged | src/utils/MapGenerator.ts:290 | with fewer than five ocean cells the map comes back unchanged and nothing is drawn |
| OceanTopUp.IsContinentEdge | src/utils/MapGenerator.ts:366-387 | `isContinentEdge` holds exactly for a non-ocean cell with an ocean cell among its eight neighbours on the map |
| OceanTopUp.KindCells | src/utils/MapGenerator.ts:390-403 | `edgeCells` and `inlandCells` list cells of their kind, each position once |
| OceanTopUp.KindRowSound | src/utils/MapGenerator.ts:394-402 | the cells pushed for one row are non-village land of the right kind in that row, each once |
| OceanTopUp.KindRowCount | src/utils/MapGenerator.ts:394-402 | a row's edge and inland cells together are as many as its desert and plains cells |
| OceanTopUp.KindStep | src/utils/MapGenerator.ts:395-401 | a cell is pushed to one of the two lists exactly when it holds desert or plains |
| OceanTopUp.KindCellsSound | src/utils/MapGenerator.ts:393-403 | the cells listed for the first j rows are of the listed kind, in those rows, each once |
| OceanTopUp.KindCellsCount | src/utils/MapGenerator.ts:393-403 | edge and inland cells of the first j rows are as many as their desert and plains cells |
| OceanTopUp.KindRowFull | src/utils/MapGenerator.ts:393-403 | a whole row lists one edge or inland cell per desert or plains cell |
| OceanTopUp.KindRowComplete | src/utils/MapGenerator.ts:394-402 | every cell of a kind in the row has its place in that row's list |
| OceanTopUp.KindCellsComplete | src/utils/MapGenerator.ts:393-403 | every cell of a kind in the first j rows has its place in the list |
| OceanTopUp.ClassifyRow | src/utils/MapGenerator.ts:394-402 | the x loop appends the row's edge and inland cells to the two lists |
| OceanTopUp.ClassifyLand | src/utils/MapGenerator.ts:390-403 | the classifying loops build `edgeCells` and `inlandCells` |
| OceanTopUp.DistFromLeast | src/utils/MapGenerator.ts:427-445 | the search from radius r finds the first ring at or after r that holds ocean, below the bound, or `Number.MAX_VALUE` when none does |
| OceanTopUp.MinDistNearest | src/utils/MapGenerator.ts:419-448 | `minDistanceToOcean` is the least Manhattan radius from 1 below max(height, width) whose ring holds an ocean cell, and `Number.MAX_VALUE` when none does |
| OceanTopUp.ScanRing | src/utils/MapGenerator.ts:428-443 | the dy and dx loops of one radius report exactly whether that ring holds an ocean cell on the map |
| OceanTopUp.MinDistanceToOcean | src/utils/MapGenerator.ts:419-448 | the ring search returns `MinDist` |
| OceanTopUp.WithDist | src/utils/MapGenerator.ts:451-453 | the same cells in the same order, each with the distance `minDistanceToOcean` gives it: the first Manhattan ring from radius 1 that holds an ocean cell, below max(height, width), with no nearer ring holding one; or `Number.MAX_VALUE` when no ring below the bound does |
| OceanTopUp.AssignDistances | src/utils/MapGenerator.ts:451-453 | the distance loop yields `WithDist` |
| OceanTopUp.FloodAt | src/utils/MapGenerator.ts:410-414 | flooding a list makes exactly the listed cells ocean and leaves every other cell as it was |
| OceanTopUp.FloodCount | src/utils/MapGenerator.ts:410-414 | flooding distinct non-ocean cells adds one ocean cell per listed cell |
| OceanTopUp.FloodChangesOnly | src/utils/MapGenerator.ts:410-414 | flooding desert and plains cells changes only desert and plains, into ocean |
| OceanTopUp.ConvertCells | src/utils/MapGenerator.ts:410-414 | a conversion loop floods the first min(length, cellsToConvert - converted) cells and counts them |
| OceanTopUp.EdgeOrderFacts | src/utils/MapGenerator.ts:406 | a reordering of the edge cells lists every edge cell once and only those |
| OceanTopUp.EdgeOrderComplete | src/utils/MapGenerator.ts:406 | every edge cell has a place in the shuffled order |
| OceanTopUp.RankedFacts | src/utils/MapGenerator.ts:456 | sorting the inland cells keeps them on the map and at distinct positions |
| OceanTopUp.InlandOrder | src/utils/MapGenerator.ts:451-456 | the sorted inland cells are a permutation of the cells with their distances, in ascending order of distance |
| OceanTopUp.QuotaOf | src/utils/MapGenerator.ts:360-363 | `cellsToConvert` is ceil(total * target / 100) - ceil(total * current / 100) |
| OceanTopUp.OceanShare | src/utils/MapGenerator.ts:351-352 | as written, the share read is the printed share: between 0 and 100, at most 0.05 above the exact share and less than 0.05 below it, so it can count ocean cells that are not there |
| OceanTopUp.ExactShare | src/utils/MapGenerator.ts:351-352 | the corrected reading, the unrounded share: between 0 and 100, and 0 exactly when the map has no ocean |
| OceanTopUp.Quota | src/utils/MapGenerator.ts:359-363 | no cell to convert once the share read reaches the target; read unrounded, the target number of cells rounded up less the ocean cells there are |
| OceanTopUp.Taken | src/utils/MapGenerator.ts:410-414 | a conversion loop floods no more cells than it lists and none once the quota is met, and stops at one of those two bounds |
| OceanTopUp.CellsToConvert | src/utils/MapGenerator.ts:360-363 | the three statements compute `QuotaOf` |
| OceanTopUp.ConvertInland | src/utils/MapGenerator.ts:417-463 | the distance loop, the sort and the second conversion loop yield `FloodInland` |
| OceanTopUp.ConvertInOrder | src/utils/MapGenerator.ts:409-463 | both conversion loops, edge cells in the given order first, yield `FloodLand` |
| OceanTopUp.FloodLand | src/utils/MapGenerator.ts:409-463 | the two conversion loops keep the map's shape |
| OceanTopUp.FloodInland | src/utils/MapGenerator.ts:456-462 | the second conversion loop keeps the map's shape |
| OceanTopUp.TopUp | src/utils/MapGenerator.ts:347-466 | the pass, with the share read either way, keeps the map's shape; `OceanShare` is the pass as written and `ExactShare` the corrected one |
| OceanTopUp.ConvertLand | src/utils/MapGenerator.ts:390-463 | from the classifying loops on the pass floods `FloodLand` of the shuffled edge order and draws what the shuffle draws |
| OceanTopUp.EnsureOceanPercentage | src/utils/MapGenerator.ts:347-466 | `_ensureOceanPercentage` as written returns `TopUp` of its input with the share read rounded to one decimal, and leaves the generator where `TopUp` says |
| OceanTopUp.EnsureOceanPercentageExact | src/utils/MapGenerator.ts:347-466 | the corrected pass, reading the share unrounded from the exact ocean count, returns `TopUp` of its input with `ExactShare` and leaves the generator where `TopUp` says |
| OceanTopUp.ShoreFloodedIs | src/utils/MapGenerator.ts:410-414 | flooding all edge cells, in whatever order the shuffle leaves them, floods exactly the edge cells |
| OceanTopUp.EdgePhaseCount | src/utils/MapGenerator.ts:410-414 | the first loop adds one ocean cell per edge cell it takes |
| OceanTopUp.EdgePhaseAll | src/utils/MapGenerator.ts:410-417 | when the first loop falls short of the quota it has flooded every edge cell |
| OceanTopUp.InlandPhaseCount | src/utils/MapGenerator.ts:458-462 | the second loop adds one ocean cell per inland cell it takes |
| OceanTopUp.ShoreThenInland | src/utils/MapGenerator.ts:417-463 | both loops together add one ocean cell per edge cell and min(rest, inland cells) more |
| OceanTopUp.AfterShoreCount | src/utils/MapGenerator.ts:417-463 | when the edge cells fall short of the quota, the two loops flood min(quota, desert and plains cells) cells |
| OceanTopUp.AfterShoreEdges | src/utils/MapGenerator.ts:417-463 | once the first loop is exhausted every edge cell is ocean, whatever the second loop does |
| OceanTopUp.LandCells | src/utils/MapGenerator.ts:393-403 | edge and inland cells together are exactly the desert and plains cells |
| OceanTopUp.FloodLandChangesOnly | src/utils/MapGenerator.ts:409-463 | the conversion loops turn only desert and plains into ocean, whatever the edge order |
| OceanTopUp.FloodLandCount | src/utils/MapGenerator.ts:409-463 | the conversion loops flood exactly min(cellsToConvert, desert and plains cells) cells, whatever the edge order |
| OceanTopUp.FloodLandEdgeFirst | src/utils/MapGenerator.ts:408-417 | no inland cell is flooded unless every edge cell is |
| OceanTopUp.FloodLandNearestFirst | src/utils/MapGenerator.ts:417-462 | a flooded inland cell is no farther from the ocean than an inland cell left dry, the distance taken once the edge cells are ocean |
| OceanTopUp.TopUpEffect | src/utils/MapGenerator.ts:347-466 | whichever way the share is read: a map whose share read reaches the target comes back unchanged with no draw; otherwise only desert and plains become ocean, villages are kept, and the ocean count grows by exactly min(cellsToConvert, desert and plains cells) |
| OceanTopUp.TopUpEdgeFirst | src/utils/MapGenerator.ts:389-463 | in the returned map an ocean inland cell means that every edge cell is ocean |
| OceanTopUp.TopUpNearestFirst | src/utils/MapGenerator.ts:417-462 | in the returned map flooded inland cells are no farther from the ocean than inland cells left dry |
| OceanTopUp.TopUpCounts | src/utils/MapGenerator.ts:347-466 | the ocean cells gained are exactly the desert and plains cells lost |
| OceanTopUp.ExactOceanCells | src/utils/MapGenerator.ts:362 | read unrounded, `currentOceanCells` is exactly the number of ocean cells |
| OceanTopUp.ExactQuotaIs | src/utils/MapGenerator.ts:360-363 | read unrounded, `cellsToConvert` is the target number of cells, rounded up, less the ocean cells there are |
| OceanTopUp.ExactQuota | src/utils/MapGenerator.ts:355-363 | read unrounded, a map short of the target gets a positive quota, and flooding the whole quota reaches the target |
| OceanTopUp.ReachOrExhaust | src/utils/MapGenerator.ts:355-463 | flooding min(quota, land) cells reaches the target, or leaves no land |
| OceanTopUp.ExactTopUpShort | src/utils/MapGenerator.ts:355-463 | the corrected pass on a map short of the target ends at or above the target, or with no desert or plains left |
| OceanTopUp.ExactTopUpReachesTarget | src/utils/MapGenerator.ts:347-466 | the corrected pass returns a map at least `target` percent ocean, or one with no desert or plains left |
| OceanTopUp.RoundedShareFallsShort | src/utils/MapGenerator.ts:351-363 | as written, on any 3 x 3 map with five ocean cells and four of desert or plains and a target of 70 percent, the pass reads 55.6, floods one cell, and returns a map at six of nine cells ocean, under 70 percent, with three land cells left |
| OceanTopUp.FiveOfNine | src/utils/MapGenerator.ts:351-363 | such a map exists |
| OceanTopUp.FiveNinths | src/utils/MapGenerator.ts:351-363 | five of nine cells print as 55.6, the quota from there to 70 percent is one cell, and six of nine is under 70 percent |
| Villages.MapData.constructor | src/utils/MapGenerator.ts:473 | the pass works on the map it is given |
| Villages.MapData.Settle | src/utils/MapGenerator.ts:523 | writing a village changes exactly that cell |
| Villages.RowCandidates | src/utils/MapGenerator.ts:477-481 | the candidates pushed for one row are cells of that row a village may replace, each once |
| Villages.Candidates | src/utils/MapGenerator.ts:475-482 | the pool lists only candidate cells of the rows scanned, each once |
| Villages.RowCandidatesComplete | src/utils/MapGenerator.ts:477-481 | every plains or desert cell of a row is pushed |
| Villages.CandidatesComplete | src/utils/MapGenerator.ts:475-482 | every candidate cell of the first k rows is in the pool |
| Villages.CollectCandidates | src/utils/MapGenerator.ts:475-482 | the scanning loops yield `Candidates`: plains and desert cells in MapGenerator.ts, plains cells in MapGenerator.js (lines 136-143) |
| Villages.SplicePool | src/utils/MapGenerator.ts:501 | striking an entry keeps the pool valid and the struck cell is no longer listed |
| Villages.FindIndex | src/utils/MapGenerator.ts:580-582 | `findIndex` returns -1 exactly when no entry is at (x, y), and otherwise the first entry there |
| Villages.SettleKeepsPool | src/utils/MapGenerator.ts:574 | writing a village into a cell the pool does not list keeps the pool valid |
| Villages.PermutedPool | src/utils/MapGenerator.ts:601 | any reordering of a valid pool is a valid pool |
| Villages.CandidatesCovered | src/utils/MapGenerator.ts:475-482 | the pool covers every candidate cell of the map |
| Villages.JoinCovered | src/utils/MapGenerator.ts:574-585 | a village written and struck from the pool leaves every other candidate cell covered |
| Villages.RefuseCovered | src/utils/MapGenerator.ts:501-520 | a seed struck and refused stays accounted for among the refused seeds |
| Villages.PermutedCovered | src/utils/MapGenerator.ts:601 | a reordered pool covers what the pool covered |
| Villages.Settled | src/utils/MapGenerator.ts:493-608 | a stretch of the pass that settles n villages has n >= 0 |
| Villages.SettledKeepsOcean | src/utils/MapGenerator.ts:493-608 | settling villages never changes the number of ocean cells |
| Villages.SettleStep | src/utils/MapGenerator.ts:574-575 | writing a village into a candidate cell adds one village and changes nothing else |
| Villages.SettledTrans | src/utils/MapGenerator.ts:493-608 | two stretches of the pass add up |
| Villages.SettledShape | src/utils/MapGenerator.ts:473-608 | the pass keeps the map's shape |
| Villages.TargetVillages | src/utils/MapGenerator.ts:486 | `floor(size * size * villageRatio)` is between 0 and the number of cells for a ratio in [0, 1] |
| Villages.NumClusters | src/utils/MapGenerator.ts:490 | one to three clusters |
| Villages.NumClustersBands | src/utils/MapGenerator.ts:490 | one cluster up to 5% villages, two up to 10%, three beyond |
| Villages.ClusterTarget | src/utils/MapGenerator.ts:531 | `ceil(target / numClusters)`: the clusters together reach the target, one cell fewer each would not, and a positive target gives a positive size |
| Villages.HasEnoughSpace | src/utils/MapGenerator.ts:504-518 | the room check holds exactly when no ocean cell of the map lies within Chebyshev distance 3 of the seed |
| Villages.DirectionsAreNeighbours | src/utils/MapGenerator.ts:541-550 | the eight directions are the cells around a cell, and in MapGenerator.js (lines 189-194) the four sharing a side |
| Villages.Swaps | src/utils/MapGenerator.ts:552-555 | the swaps keep the list's length |
| Villages.SwapsPermute | src/utils/MapGenerator.ts:552-555 | the Fisher–Yates loop only reorders the directions |
| Villages.SwapPermutes | src/utils/MapGenerator.ts:554 | one swap keeps the same entries |
| Villages.SwapStep | src/utils/MapGenerator.ts:553-554 | one step draws j = floor(next() * (i + 1)) and swaps entries i and j of the array in place |
| Villages.ShuffleInPlace | src/utils/MapGenerator.ts:552-555 | the loop on the array yields `Swaps` with length - 1 draws |
| Villages.ShuffleDirections | src/utils/MapGenerator.ts:541-555 | the shuffled directions are `Swaps` of the literal, drawn with 7 draws (3 in MapGenerator.js) |
| Villages.GrowthProbability | src/utils/MapGenerator.ts:570-571 | at the seed the growth probability is 0.9 (0.95 in MapGenerator.js, line 218), and it never exceeds that |
| Villages.GrowthFavoursNear | src/utils/MapGenerator.ts:570-571 | the growth probability never rises with the distance from the seed |
| Villages.GrownConnected | src/utils/MapGenerator.ts:557-577 | a cluster grown cell by cell from neighbours is connected |
| Villages.JoinPool | src/utils/MapGenerator.ts:574-585 | a joined cell, struck from the pool when listed, keeps the pool valid |
| Villages.JoinCells | src/utils/MapGenerator.ts:574-577 | the joined cell extends the cluster, every cell a village and each grown from a neighbour |
| Villages.GrowStep | src/utils/MapGenerator.ts:573-585 | one joined cell keeps the growth loop's state |
| Villages.QueuePush | src/utils/MapGenerator.ts:576-577 | the queue stays the tail of the cluster |
| Villages.QueueShift | src/utils/MapGenerator.ts:538 | `queue.shift()` returns the cluster's next unvisited cell |
| Villages.Join | src/utils/MapGenerator.ts:573-585 | the joined cell becomes a village, joins the cluster and the queue, and leaves the pool |
| Villages.GrowFrom | src/utils/MapGenerator.ts:557-595 | the neighbour loop adds only cells to the cluster, one village per cell, and never passes the target or the cluster size |
| Villages.GrowCluster | src/utils/MapGenerator.ts:527-596 | the growth from a seed writes villages only into candidate cells, keeps the pool valid and covering, and yields a connected cluster of villages from the seed, no larger than the cluster target and never passing the overall target |
| Villages.SettledKeepsRoom | src/utils/MapGenerator.ts:504-518 | writing villages never changes an ocean cell, so it never changes the room check |
| Villages.SettledKeepsVillages | src/utils/MapGenerator.ts:493-608 | villages once written stay |
| Villages.SeedAccepted | src/utils/MapGenerator.ts:504-520 | a seed is accepted exactly when it has room, and in MapGenerator.js (line 168) always, as a pool cell is still plains |
| Villages.RefuseStep | src/utils/MapGenerator.ts:501-520 | a refused seed is struck from the pool and leaves the map as it was |
| Villages.SeedStep | src/utils/MapGenerator.ts:497-524 | an accepted seed is a candidate; writing it adds one village and keeps the pool valid and covering |
| Villages.PlantCluster | src/utils/MapGenerator.ts:495-596 | one turn of the cluster loop draws a seed from the pool; it is planted exactly when it passes the seed test, then growing a connected cluster of villages from it, and otherwise the map is unchanged and the seed is refused |
| Villages.FillingStart | src/utils/MapGenerator.ts:601 | the shuffled pool starts the fallback with nothing placed |
| Villages.FillingStep | src/utils/MapGenerator.ts:603-607 | the next shuffled cell is a candidate, and writing a village into it keeps the fallback's state |
| Villages.FillingDone | src/utils/MapGenerator.ts:603-607 | once the loop stops, the cells passed are villages and, after the whole list, no candidate is left |
| Villages.AllVillageGrow | src/utils/MapGenerator.ts:605 | a written cell extends the list of village cells |
| Villages.FillNext | src/utils/MapGenerator.ts:604-606 | one turn of the fallback writes a village, and the re-check of MapGenerator.js (line 257) always passes |
| Villages.PlaceRemaining | src/utils/MapGenerator.ts:600-608 | the fallback writes min(pool, target - placed) villages into the shuffled cells in order, and when the target stays unmet no candidate cell is left |
| Villages.FillInOrder | src/utils/MapGenerator.ts:603-607 | the loop over the shuffled cells writes villages into the first min(cells, target - placed) of them, changing nothing else, and covers every candidate when it runs to the end |
| Villages.ClustersKept | src/utils/MapGenerator.ts:493-608 | clusters already grown stay villages while later ones are written |
| Villages.Outcome | src/utils/MapGenerator.ts:493-597 | every cluster's seed cell holds a village |
| Villages.OutcomeKept | src/utils/MapGenerator.ts:493-608 | writing villages keeps what the clusters left |
| Villages.OutcomeGrow | src/utils/MapGenerator.ts:522-596 | a connected cluster from a seed with room joins the clusters |
| Villages.OutcomeRefuse | src/utils/MapGenerator.ts:520 | a seed without room joins the refused seeds |
| Villages.PlantingStep | src/utils/MapGenerator.ts:493-597 | one planted or refused seed keeps the cluster loop's state |
| Villages.FallbackStep | src/utils/MapGenerator.ts:600-608 | the fallback keeps what the clusters left |
| Villages.PlantClusters | src/utils/MapGenerator.ts:493-597 | the cluster loop writes at most max(0, target) villages, only into candidate cells, and refuses or grows at most `numClusters` seeds |
| Villages.GenerateVillages | src/utils/MapGenerator.ts:473-609 | `_generateVillages` writes villages only into candidate cells, no more than floor(size * size * ratio); when short of that no candidate cell is left; at most `numClusters` seeds are refused or grown; every refused seed lacks room; every cluster is a connected run of villages from a seed with room |
| Pipeline.CentersPositive | src/utils/MapGenerator.ts:70-74 | every centre drawn on a map with cells has a positive radius |
| Pipeline.ModernNoise | src/utils/MapGenerator.ts:66-116 | the centre bias and the two fields of MapGenerator.ts are size x size |
| Pipeline.LegacyNoise | src/utils/MapGenerator.js:41-62 | the two fields of MapGenerator.js are size x size |
| Pipeline.ClassifiedFrom | src/utils/MapGenerator.ts:119-172 | the classified map is size x size and the generator state passes through classification unchanged (it draws nothing) |
| Pipeline.KernelOfThree | src/utils/MapGenerator.ts:175 | the 3 x 3 kernel of the blur call is a blur kernel of half-width 1 |
| Pipeline.Bridged | src/utils/MapGenerator.ts:175-178 | the blur and the bridges keep the map's shape and its villages |
| Pipeline.PostProcessed | src/utils/MapGenerator.ts:175-181 | the blur, the bridges and the top-up as written (share read rounded) keep the map's shape |
| Pipeline.CorrectedPostProcessed | src/utils/MapGenerator.ts:175-181 | the same stages with the corrected top-up (share read unrounded) keep the map's shape |
| Pipeline.CorrectedPostProcessedReachesTarget | src/utils/MapGenerator.ts:175-181 | with the corrected top-up in place of line 181's, the map is at least `oceanRatio * 100` percent ocean, or has no desert or plains left |
| Pipeline.PostProcessedKeepsVillages | src/utils/MapGenerator.ts:175-181 | the blur, the bridges and the top-up, as written or corrected, neither make nor remove a village |
| Pipeline.BeforeVillages | src/utils/MapGenerator.ts:52-181 | the map handed to the village pass is size x size |
| Pipeline.BeforeVillagesNone | src/utils/MapGenerator.ts:52-181 | no stage before the village pass writes a village |
| Pipeline.LegacyNoVillage | src/utils/MapGenerator.js:27-121 | MapGenerator.js's classified map holds no village |
| Pipeline.LegacyDraws | src/utils/MapGenerator.js:41-62 | MapGenerator.js draws exactly 40 values per cell before its village pass |
| Pipeline.SettledFromNone | src/utils/MapGenerator.ts:184 | after the village pass on a map without villages the villages are exactly the placed ones and the ocean count is unchanged |
| Pipeline.NoPlainsLeft | src/utils/MapGenerator.js:134-263 | MapGenerator.js never refuses a seed, so when it misses the target no Plains cell is left |
| Pipeline.Villaged | src/utils/MapGenerator.ts:184 | after the village pass the ocean, desert, plains and placed village cells add up to all size * size cells |
| Pipeline.Settle | src/utils/MapGenerator.ts:184 | the village pass on a map without villages leaves exactly `placed` villages, all in former candidate cells, the ocean untouched, and the cluster outcome of `GenerateVillages` |
| Pipeline.MapGenerator.constructor | src/utils/MapGenerator.ts:41-46 | the generator keeps seed, size and ratios and starts a new random generator from the seed |
| Pipeline.MapGenerator.DrawClassified | src/utils/MapGenerator.ts:66-172 | the centres, the fields and their classification yield `ClassifiedFrom(ModernNoise(..))` from the generator state at the call |
| Pipeline.MapGenerator.PostProcess | src/utils/MapGenerator.ts:175-181 | the blur, bridges and top-up calls, the top-up as written, yield `PostProcessed` from the generator state at the call |
| Pipeline.MapGenerator.Generate | src/utils/MapGenerator.ts:52-187 | `generate()` returns the village pass applied to `BeforeVillages` of the generator state at the call |
| Pipeline.LegacyMapGenerator.constructor | src/utils/MapGenerator.js:16-21 | the generator keeps seed, size and ratios and starts a new random generator from the seed |
| Pipeline.LegacyMapGenerator.DrawClassified | src/utils/MapGenerator.js:41-121 | the fields and their classification yield `ClassifiedFrom(LegacyNoise(..))` from the generator state at the call |
| Pipeline.LegacyMapGenerator.Generate | src/utils/MapGenerator.js:27-127 | `generate()` of MapGenerator.js returns the village pass, no seed refused, applied to the classified map |

## Findings

| source | as written | input that shows it | evidently intended | confidence | as-written member | corrected member |
|---|---|---|---|---|---|---|
| src/utils/MapGenerator.ts:351-363 | the current ocean share is `parseFloat` of the share printed with one decimal. It is used for the early return and for `currentOceanCells = Math.ceil(totalCells * currentOceanPercentage / 100)`. A share rounded up counts ocean cells that are not there. | any 3 x 3 map with five ocean cells and four plains cells, target 70 percent. The share reads 55.6, so `currentOceanCells` is 6 where there are 5 and `cellsToConvert` is 1. The map ends at six of nine cells ocean (66.7 percent) with three plains cells left. | the pass ensures the target ocean share (its doc comment, lines 340-341): the result is at least `targetPercentage` percent ocean, or no desert or plains is left | not executed | OceanTopUp.EnsureOceanPercentage, with OceanTopUp.RoundedShareFallsShort and OceanTopUp.FiveOfNine | OceanTopUp.EnsureOceanPercentageExact, with OceanTopUp.ExactTopUpReachesTarget and Pipeline.CorrectedPostProcessedReachesTarget |

## Left out

- `generateRandomSeed` draws from `Math.random`, which is not deterministic, so it is not modelled. This applies to MapGenerator.ts, MapGenerator.js and index.ts.
- Canvas drawing and PNG export (`drawMapToCanvas`, `saveMapAsPNG`) are not modelled.
- Not modelled in `generateMapData`:
  - the Promise,
  - the `setTimeout` chunking,
  - the progress callback.

  What is modelled is the map those rows form.
- `createNoise2D` of the simplex-noise library is a parameter. It is a given function of the callback's value.
- `Math.sin`, `Math.sqrt` and `Math.exp` are the fields of a `MathLib` parameter. Only `exp > 0` is assumed, where the Gaussian kernel needs it. Numbers are exact reals and integers, so IEEE rounding is not modelled.
- Sorts with a random comparator (`sort(() => rng.next() - 0.5)`) are a `Shuffled` oracle. The oracle gives some permutation of its input and the number of comparator calls, and each call costs one draw. The engine's sort algorithm is not modelled.
- `toFixed(1)` is an integer number of tenths, rounded half up on the exact ratio. Binary-float string rounding is not modelled.
- Ids instead of objects:
  - The generators use `BIOMES.*` as four distinct numeric ids, and the model has them as the constructors of `Biomes.Biome`.
  - src/config/biome.ts defines objects and has no DESERT entry. That mismatch is not modelled.
  - index.ts works on the keyed 0..7 table, modelled in `SeedMap`.
- `biomeRatios` is a record of three percentages. A missing key, which would make the ratio `NaN`, is not modelled.
- Pipeline.MapGenerator.Generate: it requires `size > 0` and `0 <= oceanRatio < 1`. Outside these the source reads `map[0]` of an empty map or indexes past the sorted records, which throws in JavaScript.
- Pipeline.LegacyMapGenerator.Generate: the same requirements as `Pipeline.MapGenerator.Generate`.
- OceanTopUp.EnsureOceanPercentage: it requires a non-empty map, because `calculateBiomePercentage` reads `mapData[0]`.
- NoiseGenerator.GenerateOctaveNoise: it requires a non-zero scale and a non-zero sum of amplitudes. That sum is 0 for `octaves = 0`. Otherwise the source divides by zero, and every call in the source meets both.
- The blurs require an odd kernel size, as every call in the source passes (3). With an even size k, `ky + halfKernel` reaches k, one past the kernel's last row, so `kernel[ky + halfKernel][kx + halfKernel]` (src/utils/NoiseGenerator.ts:104) reads from `undefined` and throws a TypeError. This covers `NoiseGenerator.ApplyGaussianBlur`, `NoiseGenerator.ApplyGaussianBlurRounded` and `Smoothing.ApplyBiomeBlur`.
- Villages.GenerateVillages does not fix how many draws the growth loop makes. The number depends on the shuffle and on acceptance draws against distances computed with `Math.sqrt`. This also leaves the legacy "three shuffle draws plus one per neighbour examined" count unstated.
- Villages.GenerateVillages returns `placedVillages` as the source does. It also returns ghost outputs, `refused` (seeds turned down) and `clusters` (the cells of each cluster), which only the contract uses.
- The BFS queue is a sequence. `shift` is dropping the first element and `push` is appending.
- MapGenerator.js re-checks for Plains at a seed cell and at each fallback cell. Its pool lists only cells that still hold Plains, so both checks always pass. They are modelled as written, and the contracts of Villages.SeedAccepted and Villages.FillNext state that they pass. Pipeline.NoPlainsLeft proves what follows from this.
- Fields that are set once (`seed`, `size`, `biomeRatios`) are `const`. Only `rng.seed` and the village map change.
- `calculateBiomePercentage` of index.ts: cells that are `undefined` are not modelled. A row shorter than the map is read up to its end.
