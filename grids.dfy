/** Rectangular grids as lists of rows: `g[y][x]` is row y, column x. */
module Grids {

  /** g has `rows` rows of `cols` cells each. */
  predicate IsGrid<T>(g: seq<seq<T>>, rows: nat, cols: nat) {
    |g| == rows && forall y :: 0 <= y < rows ==> |g[y]| == cols
  }

  /** Every row of g has the length of the first one. */
  predicate IsRect<T>(g: seq<seq<T>>) {
    |g| > 0 ==> IsGrid(g, |g|, |g[0]|)
  }

  predicate InBounds<T>(g: seq<seq<T>>, x: int, y: int) {
    0 <= y < |g| && 0 <= x < |g[y]|
  }

  /** The number of cells of g. */
  function CellTotal<T>(g: seq<seq<T>>): nat {
    if g == [] then 0 else |g[0]| + CellTotal(g[1..])
  }

  lemma {:induction false} CellTotalGrid<T>(g: seq<seq<T>>, rows: nat, cols: nat)
    requires IsGrid(g, rows, cols)
    ensures CellTotal(g) == rows * cols
  {
    if rows > 0 {
      CellTotalGrid(g[1..], rows - 1, cols);
    }
  }

  lemma AppendAssoc<T>(a: seq<T>, b: seq<T>, c: seq<T>)
    ensures a + (b + c) == (a + b) + c
  {
  }

  /** A prefix one longer is the prefix and the next element. */
  lemma PrefixSnoc<T>(s: seq<T>, i: nat)
    requires i < |s|
    ensures s[..i + 1] == s[..i] + [s[i]]
  {
  }

  lemma PrefixAll<T>(s: seq<T>)
    ensures s[..|s|] == s
  {
  }
}
