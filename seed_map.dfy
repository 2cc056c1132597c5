/**
 * src/utils/index.ts: the seed-to-number hash, the seed validation, the
 * value of the random callback handed to the noise library, the band
 * classifier of `generateMapData`, and the keyed `calculateBiomePercentage`.
 *
 * Strings are sequences of UTF-16 code units, as `charCodeAt` sees them. The
 * noise library (`createNoise2D`) is a given function: it receives the random
 * callback, and since that callback always returns the same value, the noise
 * function it builds is determined by that value.
 */
module SeedMap {
  import opened JsNumeric
  import opened SeededRandom
  import opened Grids
  import opened Sorting
  import opened Statistics

  type CodeUnit = c: int | 0 <= c < 0x1_0000
  type JsString = seq<CodeUnit>

  // ---------------------------------------------------------------------------
  // hashCode

  /** Java's `String.hashCode`: h("") = 0 and h(s + c) = 31 * h(s) + c, wrapped to 32 bits. */
  function JavaHash(s: JsString): (h: int)
    ensures IsInt32(h)
  {
    if s == [] then 0 else ToInt32(31 * JavaHash(s[..|s| - 1]) + s[|s| - 1])
  }

  lemma ToInt32Congruent(a: int, b: int)
    requires (a - b) % TWO_32 == 0
    ensures ToInt32(a) == ToInt32(b)
  {
    var k := (a - b) / TWO_32;
    assert a == b + k * TWO_32;
    ModShift(b + TWO_31, k);
  }

  lemma ModShift(v: int, k: int)
    ensures (v + k * TWO_32) % TWO_32 == v % TWO_32
  {
  }

  /**
   * One pass of the loop: `(hash << 5) - hash + char`, then `hash & hash`.
   * The shift wraps 32 * hash to 32 bits, the sum is exact, and the `&`
   * wraps again; the result is the Java recurrence step.
   */
  function HashStep(hash: int, c: CodeUnit): (r: int)
    requires IsInt32(hash)
    ensures IsInt32(r)
    ensures r == ToInt32(31 * hash + c)
  {
    var shifted := ToInt32(hash * 32);
    NegModZero(hash * 32 - shifted, TWO_32);
    assert shifted - hash + c - (31 * hash + c) == -(hash * 32 - shifted);
    ToInt32Congruent(shifted - hash + c, 31 * hash + c);
    ToInt32(shifted - hash + c)
  }

  /** `hashCode(str)`: the loop over the code units computes Java's string hash. */
  method HashCode(str: JsString) returns (hash: int)
    ensures hash == JavaHash(str)
    ensures IsInt32(hash)
  {
    hash := 0;
    var i := 0;
    while i < |str|
      invariant 0 <= i <= |str|
      invariant hash == JavaHash(str[..i])
    {
      var code := str[i];
      assert str[..i + 1][..i] == str[..i];
      hash := HashStep(hash, code);
      i := i + 1;
    }
    assert str[..i] == str;
  }

  /** The hash of "" is 0, and appending a code unit is one step of the recurrence. */
  lemma JavaHashSnoc(s: JsString, c: CodeUnit)
    ensures JavaHash([]) == 0
    ensures JavaHash(s + [c]) == ToInt32(31 * JavaHash(s) + c)
  {
    assert (s + [c])[..|s|] == s;
  }

  // ---------------------------------------------------------------------------
  // Seed validation: `/^\d{10}$/.test(seed) ? seed : '1234567890'`

  predicate IsDigit(c: CodeUnit) {
    '0' as int <= c <= '9' as int
  }

  /** `^\d{10}$`: exactly ten ASCII digits and nothing else. */
  predicate IsTenDigits(s: JsString) {
    |s| == 10 && forall i :: 0 <= i < |s| ==> IsDigit(s[i])
  }

  /** "1234567890" as code units. */
  const DEFAULT_SEED: JsString := [49, 50, 51, 52, 53, 54, 55, 56, 57, 48]

  function ValidSeed(seed: JsString): (r: JsString)
    ensures IsTenDigits(r)
    ensures IsTenDigits(seed) ==> r == seed
    ensures !IsTenDigits(seed) ==> r == DEFAULT_SEED
  {
    if !IsTenDigits(seed) then DEFAULT_SEED else seed
  }

  /** Validation changes nothing once applied: a validated seed passes unchanged. */
  lemma ValidSeedIdempotent(seed: JsString)
    ensures ValidSeed(ValidSeed(seed)) == ValidSeed(seed)
  {
  }

  // ---------------------------------------------------------------------------
  // createNoiseFunction

  /**
   * What the callback of `createNoiseFunction(seedNum)` returns: it starts
   * again from seedNum on every call, so every call gives
   * `(seedNum * 16807) % 2147483647 / 2147483647`, ECMAScript remainder.
   */
  function CallbackValue(seedNum: int): (v: real)
    requires IsInt32(seedNum)
    ensures -1.0 < v < 1.0
    ensures seedNum >= 0 ==> 0.0 <= v
    ensures 0 <= seedNum < MODULUS ==> v == Value(NextState(seedNum))
  {
    JsRem(seedNum * MULTIPLIER, MODULUS) as real / MODULUS as real
  }

  /** The product the callback forms is an exact double even for a negative seed number. */
  lemma CallbackIsExact(seedNum: int)
    requires IsInt32(seedNum)
    ensures -TWO_53 < seedNum * MULTIPLIER < TWO_53
  {
  }

  // ---------------------------------------------------------------------------
  // The band classifier of generateMapData

  /** The combined sample: `((n1 + 0.5 * n2 + 0.25 * n3) / 1.75 + 1) / 2`. */
  function Combine(n1: real, n2: real, n3: real): (v: real)
    ensures -1.0 <= n1 <= 1.0 && -1.0 <= n2 <= 1.0 && -1.0 <= n3 <= 1.0 ==> 0.0 <= v <= 1.0
  {
    var value := (n1 + n2 * 0.5 + n3 * 0.25) / 1.75;
    (value + 1.0) / 2.0
  }

  /** A larger sample never gives a smaller combined value. */
  lemma CombineMonotone(a1: real, a2: real, a3: real, b1: real, b2: real, b3: real)
    requires a1 <= b1 && a2 <= b2 && a3 <= b3
    ensures Combine(a1, a2, a3) <= Combine(b1, b2, b3)
  {
  }

  /** The keys 0 (deep ocean) to 6 (snow) by the strict thresholds of the if-chain. */
  function BandKey(value: real): (key: nat)
    ensures key <= 6
  {
    if value < 0.3 then 0
    else if value < 0.4 then 1
    else if value < 0.45 then 2
    else if value < 0.6 then 3
    else if value < 0.7 then 4
    else if value < 0.85 then 5
    else 6
  }

  /** The band thresholds, in increasing order. */
  const THRESHOLDS: seq<real> := [0.3, 0.4, 0.45, 0.6, 0.7, 0.85]

  function Reached(value: real): real -> bool {
    t => t <= value
  }

  /** The key of a value is the number of thresholds it reaches. */
  lemma BandKeyCountsThresholds(value: real)
    ensures BandKey(value) == CountWhere(THRESHOLDS, Reached(value))
  {
    var p := Reached(value);
    var s := THRESHOLDS;
    assert s[1..] == [0.4, 0.45, 0.6, 0.7, 0.85];
    assert s[1..][1..] == [0.45, 0.6, 0.7, 0.85];
    assert s[1..][1..][1..] == [0.6, 0.7, 0.85];
    assert s[1..][1..][1..][1..] == [0.7, 0.85];
    assert s[1..][1..][1..][1..][1..] == [0.85];
    assert s[1..][1..][1..][1..][1..][1..] == [];
  }

  /** The classifier is non-decreasing: a higher value never gets a lower key. */
  lemma BandKeyMonotone(v1: real, v2: real)
    requires v1 <= v2
    ensures BandKey(v1) <= BandKey(v2)
  {
  }

  /** The combined noise of cell (x, y): the sampler at the cell's coordinates and at twice and four times them. */
  function CombinedAt(simplex: (real, real) -> real, x: nat, y: nat, noiseScale: real): real {
    var nx, ny := x as real * noiseScale, y as real * noiseScale;
    Combine(simplex(nx, ny), simplex(nx * 2.0, ny * 2.0), simplex(nx * 4.0, ny * 4.0))
  }

  /** The key `generateMapData` stores for cell (x, y) with noise scale `noiseScale`. */
  function CellKey(simplex: (real, real) -> real, x: nat, y: nat, noiseScale: real): (key: nat)
    ensures key <= 6
  {
    BandKey(CombinedAt(simplex, x, y, noiseScale))
  }

  /** The village key, which `generateMapData` never produces. */
  const VILLAGE_KEY: nat := 7

  /** The noise function built from the seed string, as `generateMapData` builds it. */
  function SeedNoise(seed: JsString, createNoise2D: real -> ((real, real) -> real)): (real, real) -> real {
    createNoise2D(CallbackValue(JavaHash(ValidSeed(seed))))
  }

  /** Each cell of row y is keyed by the number of thresholds its combined noise reaches. */
  lemma KeysCountThresholds(simplex: (real, real) -> real, y: nat, mapSize: nat, noiseScale: real)
    ensures forall x :: 0 <= x < mapSize ==>
      CellKey(simplex, x, y, noiseScale) == CountWhere(THRESHOLDS, Reached(CombinedAt(simplex, x, y, noiseScale)))
  {
    forall x | 0 <= x < mapSize
      ensures CellKey(simplex, x, y, noiseScale) == CountWhere(THRESHOLDS, Reached(CombinedAt(simplex, x, y, noiseScale)))
    {
      BandKeyCountsThresholds(CombinedAt(simplex, x, y, noiseScale));
    }
  }

  /** Cells of row y with more combined noise never get a lower key. */
  lemma KeysFollowNoise(simplex: (real, real) -> real, y: nat, mapSize: nat, noiseScale: real)
    ensures forall x1, x2 :: (
      0 <= x1 < mapSize && 0 <= x2 < mapSize && CombinedAt(simplex, x1, y, noiseScale) <= CombinedAt(simplex, x2, y, noiseScale)
      ==> CellKey(simplex, x1, y, noiseScale) <= CellKey(simplex, x2, y, noiseScale))
  {
    forall x1, x2 | 0 <= x1 < mapSize && 0 <= x2 < mapSize
      && CombinedAt(simplex, x1, y, noiseScale) <= CombinedAt(simplex, x2, y, noiseScale)
      ensures CellKey(simplex, x1, y, noiseScale) <= CellKey(simplex, x2, y, noiseScale)
    {
      BandKeyMonotone(CombinedAt(simplex, x1, y, noiseScale), CombinedAt(simplex, x2, y, noiseScale));
    }
  }

  /**
   * Row y of the result: every key is the number of band thresholds its
   * cell's combined noise reaches, so it lies in 0..6, is never the village
   * key, and follows the order of the combined noise along the row.
   */
  function KeyRow(simplex: (real, real) -> real, y: nat, mapSize: nat, noiseScale: real): (row: seq<nat>)
    ensures |row| == mapSize
    ensures forall x :: 0 <= x < mapSize ==> row[x] <= 6 && row[x] != VILLAGE_KEY
    ensures forall x :: 0 <= x < mapSize ==> row[x] == CountWhere(THRESHOLDS, Reached(CombinedAt(simplex, x, y, noiseScale)))
    ensures forall x1, x2 :: (
      0 <= x1 < mapSize && 0 <= x2 < mapSize && CombinedAt(simplex, x1, y, noiseScale) <= CombinedAt(simplex, x2, y, noiseScale)
      ==> row[x1] <= row[x2])
  {
    KeysCountThresholds(simplex, y, mapSize, noiseScale);
    KeysFollowNoise(simplex, y, mapSize, noiseScale);
    seq(mapSize, x requires 0 <= x < mapSize => CellKey(simplex, x, y, noiseScale))
  }

  /** The loop over the columns of row y: each cell gets its key. */
  method FillRow(simplex: (real, real) -> real, y: nat, mapSize: nat, noiseScale: real, row: seq<nat>) returns (filled: seq<nat>)
    requires |row| == mapSize
    ensures filled == KeyRow(simplex, y, mapSize, noiseScale)
  {
    filled := row;
    var x := 0;
    while x < mapSize
      invariant 0 <= x <= mapSize
      invariant |filled| == mapSize
      invariant forall i :: 0 <= i < x ==> filled[i] == CellKey(simplex, i, y, noiseScale)
    {
      var nx := x as real * noiseScale;
      var ny := y as real * noiseScale;
      var noise1 := simplex(nx, ny);
      var noise2 := simplex(nx * 2.0, ny * 2.0);
      var noise3 := simplex(nx * 4.0, ny * 4.0);
      var biomeKey := BandKey(Combine(noise1, noise2, noise3));
      assert biomeKey == CellKey(simplex, x, y, noiseScale);
      filled := filled[x := biomeKey];
      x := x + 1;
    }
  }

  /** `scale / 1000`: the step between neighbouring cells in noise coordinates. */
  function NoiseScale(scale: real): real {
    scale / 1000.0
  }

  /** A map whose rows are the key rows holds the key of every cell, and so no village. */
  lemma {:induction false} RowsAreKeys(simplex: (real, real) -> real, mapData: seq<seq<nat>>, mapSize: nat, noiseScale: real)
    requires |mapData| == mapSize
    requires forall j :: 0 <= j < mapSize ==> mapData[j] == KeyRow(simplex, j, mapSize, noiseScale)
    ensures IsGrid(mapData, mapSize, mapSize)
    ensures forall y, x :: 0 <= y < mapSize && 0 <= x < mapSize ==>
      mapData[y][x] == CellKey(simplex, x, y, noiseScale) && mapData[y][x] != VILLAGE_KEY
  {
    forall y, x | 0 <= y < mapSize && 0 <= x < mapSize
      ensures mapData[y][x] == CellKey(simplex, x, y, noiseScale) && mapData[y][x] != VILLAGE_KEY
    {
      assert mapData[y] == KeyRow(simplex, y, mapSize, noiseScale);
    }
  }

  /**
   * `generateMapData` without its Promise and progress reports: rows are
   * processed ten at a time, and every cell gets the band of its combined
   * noise. Every key lies in 0..6, so no cell is a village.
   */
  method GenerateMapData(seed: JsString, mapSize: nat, scale: real, createNoise2D: real -> ((real, real) -> real))
    returns (mapData: seq<seq<nat>>)
    ensures IsGrid(mapData, mapSize, mapSize)
    ensures forall y, x :: 0 <= y < mapSize && 0 <= x < mapSize ==>
      mapData[y][x] == CellKey(SeedNoise(seed, createNoise2D), x, y, NoiseScale(scale))
    ensures forall y, x :: 0 <= y < mapSize && 0 <= x < mapSize ==> mapData[y][x] != VILLAGE_KEY
  {
    var validSeed := ValidSeed(seed);
    var seedNum := HashCode(validSeed);
    var simplex := createNoise2D(CallbackValue(seedNum));
    var noiseScale := NoiseScale(scale);
    mapData := seq(mapSize, _ => seq(mapSize, _ => 0));
    var y := 0;
    var chunkSize := 10;
    while y < mapSize
      invariant 0 <= y <= mapSize
      invariant |mapData| == mapSize
      invariant forall j :: 0 <= j < y ==> mapData[j] == KeyRow(simplex, j, mapSize, noiseScale)
      invariant forall j :: y <= j < mapSize ==> |mapData[j]| == mapSize
    {
      var endY := Min(y + chunkSize, mapSize);
      var currentY := y;
      while currentY < endY
        invariant y <= currentY <= endY
        invariant |mapData| == mapSize
        invariant forall j :: 0 <= j < currentY ==> mapData[j] == KeyRow(simplex, j, mapSize, noiseScale)
        invariant forall j :: currentY <= j < mapSize ==> |mapData[j]| == mapSize
      {
        var row := FillRow(simplex, currentY, mapSize, noiseScale, mapData[currentY]);
        assert row == KeyRow(simplex, currentY, mapSize, noiseScale);
        mapData := mapData[currentY := row];
        currentY := currentY + 1;
      }
      y := endY;
    }
    assert simplex == SeedNoise(seed, createNoise2D);
    RowsAreKeys(simplex, mapData, mapSize, noiseScale);
  }

  // ---------------------------------------------------------------------------
  // The biome table and the keyed calculateBiomePercentage

  /** One entry of `BIOMES`: its key, display name and colour. */
  datatype BiomeInfo = BiomeInfo(key: nat, name: string, color: string)

  /** `BIOMES` in key order; `BIOME_BY_KEY[k]` is entry k. */
  const BIOME_TABLE: seq<BiomeInfo> := [
    BiomeInfo(0, "\U{6DF1}\U{6D77}", "#0066BB"),
    BiomeInfo(1, "\U{6DFA}\U{6D77}", "#3399CC"),
    BiomeInfo(2, "\U{6C99}\U{7058}", "#DDCC88"),
    BiomeInfo(3, "\U{5E73}\U{539F}", "#669944"),
    BiomeInfo(4, "\U{68EE}\U{6797}", "#22AA22"),
    BiomeInfo(5, "\U{5C71}\U{8108}", "#777777"),
    BiomeInfo(6, "\U{96EA}\U{5C71}", "#FFFFFF"),
    BiomeInfo(7, "\U{6751}\U{838A}", "#FF6347")
  ]

  lemma TableIsKeyed()
    ensures |BIOME_TABLE| == 8
    ensures forall k :: 0 <= k < 8 ==> BIOME_TABLE[k].key == k
  {
  }

  /** One entry of the result: the biome's name, its share in tenths of a percent, its colour. */
  datatype BiomeEntry = BiomeEntry(name: string, percentage: nat, color: string)

  function IsKey(k: int): int -> bool {
    c => c == k
  }

  /** The keys of the table, `Object.values(BIOMES)` by key. */
  const TABLE_KEYS: set<int> := {0, 1, 2, 3, 4, 5, 6, 7}

  /** The cells of a row the counting loop reads: those before column n that exist. */
  function ReadPart(row: seq<int>, n: nat): seq<int> {
    row[..Min(n, |row|)]
  }

  /** The number of cells holding key k among the first n rows, each read up to column n. */
  function KeyCount(mapData: seq<seq<int>>, k: int, n: nat): (c: nat)
    requires n <= |mapData|
  {
    if n == 0 then 0 else KeyCount(mapData, k, n - 1) + CountWhere(ReadPart(mapData[n - 1], |mapData|), IsKey(k))
  }

  /**
   * The loop over `biomeCounts`: an entry for every key the table knows, with
   * that key's share of `total` cells; any other key is dropped.
   */
  function EntriesFrom(counts: map<int, nat>, total: nat): (r: map<int, BiomeEntry>)
    requires total > 0 && TABLE_KEYS <= counts.Keys
    ensures r.Keys == TABLE_KEYS
  {
    map k | k in TABLE_KEYS :: BiomeEntry(BIOME_TABLE[k].name, Tenths(counts[k], total), BIOME_TABLE[k].color)
  }

  lemma EntriesFromAgree(c1: map<int, nat>, c2: map<int, nat>, total: nat)
    requires total > 0 && TABLE_KEYS <= c1.Keys && TABLE_KEYS <= c2.Keys
    requires forall k | k in TABLE_KEYS :: c1[k] == c2[k]
    ensures EntriesFrom(c1, total) == EntriesFrom(c2, total)
  {
  }

  /** The count of every table key in the n x n cells of an n-row map. */
  function KeyCounts(mapData: seq<seq<int>>): (counts: map<int, nat>)
    ensures counts.Keys == TABLE_KEYS
  {
    map k | k in TABLE_KEYS :: KeyCount(mapData, k, |mapData|)
  }

  /** The result for a non-empty map of n rows: every table key, its share of n * n cells. */
  function Entries(mapData: seq<seq<int>>): (r: map<int, BiomeEntry>)
    requires |mapData| > 0
    ensures r.Keys == TABLE_KEYS
  {
    EntriesFrom(KeyCounts(mapData), |mapData| * |mapData|)
  }

  lemma CountWhereStep(s: seq<int>, x: nat, k: int)
    requires x < |s|
    ensures CountWhere(s[..x + 1], IsKey(k)) == CountWhere(s[..x], IsKey(k)) + (if s[x] == k then 1 else 0)
  {
    assert s[..x + 1] == s[..x] + [s[x]];
    CountWhereAppend(s[..x], [s[x]], IsKey(k));
  }

  /** Every key of the table at 0. */
  function ZeroKeyCounts(): (counts: map<int, nat>)
    ensures counts.Keys == TABLE_KEYS
    ensures forall k | k in counts :: counts[k] == 0
  {
    map k | k in TABLE_KEYS :: 0
  }

  lemma KeyCountStep(mapData: seq<seq<int>>, k: int, y: nat)
    requires y < |mapData|
    ensures KeyCount(mapData, k, y + 1) == KeyCount(mapData, k, y) + CountWhere(ReadPart(mapData[y], |mapData|), IsKey(k))
  {
  }

  /** The inner loop over one row: every key read adds one to its slot. */
  method TallyKeyRow(row: seq<int>, mapSize: nat, counts: map<int, nat>) returns (counts': map<int, nat>)
    requires TABLE_KEYS <= counts.Keys
    ensures TABLE_KEYS <= counts'.Keys
    ensures forall k | k in TABLE_KEYS :: counts'[k] == counts[k] + CountWhere(ReadPart(row, mapSize), IsKey(k))
  {
    counts' := counts;
    var x := 0;
    while x < mapSize
      invariant 0 <= x <= mapSize
      invariant TABLE_KEYS <= counts'.Keys
      invariant forall k | k in TABLE_KEYS :: counts'[k] == counts[k] + CountWhere(row[..Min(x, |row|)], IsKey(k))
    {
      if x < |row| {
        var biomeKey := row[x];
        forall k ensures CountWhere(row[..x + 1], IsKey(k)) == CountWhere(row[..x], IsKey(k)) + (if biomeKey == k then 1 else 0) {
          CountWhereStep(row, x, k);
        }
        var before := if biomeKey in counts' then counts'[biomeKey] else 0;
        counts' := counts'[biomeKey := before + 1];
      }
      x := x + 1;
    }
  }

  /** The counting loops of a non-empty map of n rows: n rows, each read up to column n. */
  method CountKeys(mapData: seq<seq<int>>) returns (biomeCounts: map<int, nat>)
    ensures TABLE_KEYS <= biomeCounts.Keys
    ensures forall k | k in TABLE_KEYS :: biomeCounts[k] == KeyCount(mapData, k, |mapData|)
  {
    var mapSize := |mapData|;
    biomeCounts := ZeroKeyCounts();
    var y := 0;
    while y < mapSize
      invariant 0 <= y <= mapSize
      invariant TABLE_KEYS <= biomeCounts.Keys
      invariant forall k | k in TABLE_KEYS :: biomeCounts[k] == KeyCount(mapData, k, y)
    {
      var counted := TallyKeyRow(mapData[y], mapSize, biomeCounts);
      forall k | k in TABLE_KEYS ensures counted[k] == KeyCount(mapData, k, y + 1) {
        KeyCountStep(mapData, k, y);
      }
      biomeCounts := counted;
      y := y + 1;
    }
  }

  /**
   * `calculateBiomePercentage` of index.ts: {} for an empty map; otherwise one
   * entry per table key. It counts the n x n cells of an n-row map, skipping
   * cells past a row's end; a key outside the table is counted in a slot that
   * no entry reads.
   */
  method CalculateBiomePercentage(mapData: seq<seq<int>>) returns (r: map<int, BiomeEntry>)
    ensures |mapData| == 0 ==> r == map[]
    ensures |mapData| > 0 ==> r == Entries(mapData)
  {
    if |mapData| == 0 {
      return map[];
    }
    var mapSize := |mapData|;
    var totalCells := mapSize * mapSize;
    var biomeCounts := CountKeys(mapData);
    r := EntriesFrom(biomeCounts, totalCells);
    EntriesFromAgree(biomeCounts, KeyCounts(mapData), totalCells);
  }

  /** The eight key counts of a row whose keys all lie in the table add up to its length. */
  lemma {:induction false} RowKeysCover(row: seq<int>)
    requires forall i :: 0 <= i < |row| ==> 0 <= row[i] < 8
    ensures CountWhere(row, IsKey(0)) + CountWhere(row, IsKey(1)) + CountWhere(row, IsKey(2)) + CountWhere(row, IsKey(3))
          + CountWhere(row, IsKey(4)) + CountWhere(row, IsKey(5)) + CountWhere(row, IsKey(6)) + CountWhere(row, IsKey(7))
         == |row|
  {
    if row != [] {
      RowKeysCover(row[1..]);
    }
  }

  /** The eight key counts of the first n rows, added up. */
  function KeySum(mapData: seq<seq<int>>, n: nat): int
    requires n <= |mapData|
  {
    KeyCount(mapData, 0, n) + KeyCount(mapData, 1, n) + KeyCount(mapData, 2, n) + KeyCount(mapData, 3, n)
    + KeyCount(mapData, 4, n) + KeyCount(mapData, 5, n) + KeyCount(mapData, 6, n) + KeyCount(mapData, 7, n)
  }

  /** Row n - 1 of a square map with table keys only adds its whole length to the sum. */
  lemma KeySumStep(mapData: seq<seq<int>>, n: nat)
    requires IsGrid(mapData, |mapData|, |mapData|) && 0 < n <= |mapData|
    requires forall y, x :: 0 <= y < |mapData| && 0 <= x < |mapData| ==> 0 <= mapData[y][x] < 8
    ensures KeySum(mapData, n) == KeySum(mapData, n - 1) + |mapData|
  {
    var row := mapData[n - 1];
    assert ReadPart(row, |mapData|) == row;
    RowKeysCover(row);
  }

  /** For a square map whose keys all lie in the table, the eight counts add up to every cell. */
  lemma {:induction false} KeysCover(mapData: seq<seq<int>>, n: nat)
    requires IsGrid(mapData, |mapData|, |mapData|) && n <= |mapData|
    requires forall y, x :: 0 <= y < |mapData| && 0 <= x < |mapData| ==> 0 <= mapData[y][x] < 8
    ensures KeySum(mapData, n) == n * |mapData|
  {
    if n > 0 {
      KeysCover(mapData, n - 1);
      KeySumStep(mapData, n);
      assert n * |mapData| == (n - 1) * |mapData| + |mapData|;
    }
  }
}
