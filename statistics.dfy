/**
 * The static `calculateBiomePercentage` of MapGenerator.ts and MapGenerator.js
 * (the two are the same code): one count per biome, each printed with one
 * decimal as a percentage of all cells.
 *
 * A percentage string `(count / total * 100).toFixed(1)` is kept as the
 * integer number of tenths it shows; `parseFloat` of it is that number / 10.
 */
module Statistics {
  import opened Grids
  import opened Biomes

  /**
   * `(count / total * 100).toFixed(1)` in tenths: 1000 * count / total rounded
   * to the nearest integer, an exact half rounding up.
   */
  function Tenths(count: nat, total: nat): (t: nat)
    requires total > 0
    ensures t as real - 0.5 <= 1000.0 * count as real / total as real < t as real + 0.5
    ensures count <= total ==> t <= 1000
  {
    var t := (2000 * count + total) / (2 * total);
    TenthsNearest(count, total, t);
    t
  }

  lemma TenthsNearest(count: nat, total: nat, t: int)
    requires total > 0
    requires t == (2000 * count + total) / (2 * total)
    ensures t as real - 0.5 <= 1000.0 * count as real / total as real < t as real + 0.5
    ensures count <= total ==> t <= 1000
  {
    TenthsIntBounds(count, total, t);
    TenthsRealBounds(count, total, t);
  }

  lemma TenthsIntBounds(count: nat, total: nat, t: int)
    requires total > 0
    requires t == (2000 * count + total) / (2 * total)
    ensures (2 * t - 1) * total <= 2000 * count < (2 * t + 1) * total
    ensures count <= total ==> t <= 1000
  {
    var n, d := 2000 * count + total, 2 * total;
    var q := t * total;
    assert t * d == 2 * q;
    assert 2 * q <= n < 2 * q + d by {
      assert n == t * d + n % d && 0 <= n % d < d;
    }
    assert (2 * t - 1) * total == 2 * q - total && (2 * t + 1) * total == 2 * q + total;
    if count <= total {
      AtMostThousand(t, total, q);
    }
  }

  /** t * total <= 1000.5 * total with total positive leaves t <= 1000. */
  lemma AtMostThousand(t: int, total: nat, q: int)
    requires total > 0 && q == t * total && 2 * q <= 2001 * total
    ensures t <= 1000
  {
    MulAtLeast(t, 1001, total);
  }

  lemma MulAtLeast(a: int, b: int, c: nat)
    ensures a >= b ==> a * c >= b * c
  {
    if a >= b {
      assert a * c - b * c == (a - b) * c;
    }
  }

  lemma TenthsRealBounds(count: nat, total: nat, t: int)
    requires total > 0
    requires (2 * t - 1) * total <= 2000 * count < (2 * t + 1) * total
    ensures t as real - 0.5 <= 1000.0 * count as real / total as real < t as real + 0.5
  {
    var T := total as real;
    assert ((2 * t - 1) * total) as real == (2.0 * t as real - 1.0) * T;
    assert ((2 * t + 1) * total) as real == (2.0 * t as real + 1.0) * T;
    ScaledQuotient(t as real - 0.5, 1000.0 * count as real, t as real + 0.5, T);
  }

  lemma ScaledQuotient(a: real, b: real, c: real, T: real)
    requires T > 0.0
    requires 2.0 * a * T <= 2.0 * b < 2.0 * c * T
    ensures a <= b / T < c
  {
    assert b / T * T == b;
  }

  /** More cells never show a smaller percentage. */
  lemma TenthsMonotone(c1: nat, c2: nat, total: nat)
    requires total > 0 && c1 <= c2
    ensures Tenths(c1, total) <= Tenths(c2, total)
  {
    var d := 2 * total;
    var n1, n2 := 2000 * c1 + total, 2000 * c2 + total;
    assert n1 <= n2;
    DivMonotone(n1, n2, d);
  }

  lemma DivMonotone(a: nat, b: nat, d: nat)
    requires d > 0 && a <= b
    ensures a / d <= b / d
  {
    var qa, qb := a / d, b / d;
    assert qa * d <= a && b < qb * d + d by {
      assert a == qa * d + a % d && 0 <= a % d;
      assert b == qb * d + b % d && b % d < d;
    }
    assert (qb + 1 - qa) * d == qb * d + d - qa * d;
    PositiveFactor(qb + 1 - qa, d);
  }

  lemma PositiveFactor(k: int, d: int)
    requires d > 0 && k * d > 0
    ensures k > 0
  {
  }

  /** Every cell and every biome: 0 and 1000 tenths are 0 % and 100 %. */
  lemma TenthsEnds(total: nat)
    requires total > 0
    ensures Tenths(0, total) == 0
    ensures Tenths(total, total) == 1000
  {
    var d := 2 * total;
    assert 2000 * total + total == 1000 * d + total;
    Quotient(1000, d, total);
    Quotient(0, d, total);
  }

  lemma Quotient(q: nat, d: nat, r: nat)
    requires r < d
    ensures (q * d + r) / d == q
  {
    var n := q * d + r;
    var t, m := n / d, n % d;
    assert n == t * d + m && 0 <= m < d;
    assert (q - t) * d == m - r;
    SmallMultiple(q - t, d);
  }

  lemma SmallMultiple(k: int, d: int)
    requires 0 - d < k * d < d
    ensures k == 0
  {
  }

  /** The keys `Object.values(BIOMES)` initialises, all of them at 0. */
  function ZeroCounts(): (counts: map<Biome, nat>)
    ensures counts.Keys == {Ocean, Desert, Plains, Village}
    ensures forall b | b in counts :: counts[b] == 0
  {
    map[Ocean := 0, Desert := 0, Plains := 0, Village := 0]
  }

  /** The inner loop over one row: each cell adds one to the count of its biome. */
  method TallyRow(row: seq<Biome>, counts: map<Biome, nat>) returns (counts': map<Biome, nat>)
    requires counts.Keys == {Ocean, Desert, Plains, Village}
    ensures counts'.Keys == counts.Keys
    ensures forall b | b in counts :: counts'[b] == counts[b] + CountRow(row, b)
  {
    counts' := counts;
    var x := 0;
    while x < |row|
      invariant 0 <= x <= |row|
      invariant counts'.Keys == counts.Keys
      invariant forall b | b in counts :: counts'[b] == counts[b] + CountRow(row[..x], b)
    {
      var cell := row[x];
      assert cell in counts' by {
        assert cell == Ocean || cell == Desert || cell == Plains || cell == Village;
      }
      forall b ensures CountRow(row[..x + 1], b) == CountRow(row[..x], b) + (if cell == b then 1 else 0) {
        CountRowPrefixStep(row, x, b);
      }
      counts' := counts'[cell := counts'[cell] + 1];
      x := x + 1;
    }
    assert row[..x] == row;
  }

  /**
   * `calculateBiomePercentage`: for every biome, its share of the cells in
   * tenths of a percent. The source reads `mapData[0]`, so the map has a row,
   * and it divides by the number of cells, so that row is not empty; every row
   * is read up to the length of the first.
   */
  method CalculateBiomePercentage(mapData: BiomeMap) returns (percentages: map<Biome, nat>)
    requires |mapData| > 0 && |mapData[0]| > 0 && IsRect(mapData)
    ensures percentages.Keys == {Ocean, Desert, Plains, Village}
    ensures forall b | b in percentages :: percentages[b] == Tenths(Count(mapData, b), |mapData| * |mapData[0]|)
  {
    var totalCells := |mapData| * |mapData[0]|;
    var biomeCounts := CountBiomes(mapData);
    percentages := map b | b in biomeCounts.Keys :: Tenths(biomeCounts[b], totalCells);
  }

  /** The counting loops of `calculateBiomePercentage`: `biomeCounts` holds every biome's number of cells. */
  method CountBiomes(mapData: BiomeMap) returns (biomeCounts: map<Biome, nat>)
    ensures biomeCounts.Keys == {Ocean, Desert, Plains, Village}
    ensures forall b | b in biomeCounts :: biomeCounts[b] == Count(mapData, b)
  {
    biomeCounts := ZeroCounts();
    var y := 0;
    while y < |mapData|
      invariant 0 <= y <= |mapData|
      invariant biomeCounts.Keys == {Ocean, Desert, Plains, Village}
      invariant forall b | b in biomeCounts :: biomeCounts[b] == Count(mapData[..y], b)
    {
      var counted := TallyRow(mapData[y], biomeCounts);
      forall b | b in counted ensures counted[b] == Count(mapData[..y + 1], b) {
        CountPrefixStep(mapData, y, b);
      }
      biomeCounts := counted;
      y := y + 1;
    }
    assert mapData[..y] == mapData;
  }
}
