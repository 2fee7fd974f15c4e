/** Two-dimensional tensors: the value of an `array2` as a sequence of rows. */
module Grids {

  /** `m` has `rows` rows of `cols` entries each. */
  predicate Shaped<T>(m: seq<seq<T>>, rows: nat, cols: nat)
  {
    |m| == rows && forall i :: 0 <= i < |m| ==> |m[i]| == cols
  }

  /** The contents of `a`, row by row. */
  function Cells<T>(a: array2<T>): (m: seq<seq<T>>)
    reads a
    ensures Shaped(m, a.Length0, a.Length1)
    ensures forall i, j :: 0 <= i < a.Length0 && 0 <= j < a.Length1 ==> m[i][j] == a[i, j]
  {
    seq(a.Length0, i requires 0 <= i < a.Length0 reads a =>
      seq(a.Length1, j requires 0 <= j < a.Length1 reads a => a[i, j]))
  }

  /** Two matrices of the same shape that agree cell by cell are equal. */
  lemma CellsEqual<T>(m: seq<seq<T>>, n: seq<seq<T>>, rows: nat, cols: nat)
    requires Shaped(m, rows, cols) && Shaped(n, rows, cols)
    requires forall i, j :: 0 <= i < rows && 0 <= j < cols ==> m[i][j] == n[i][j]
    ensures m == n
  {
    forall i | 0 <= i < rows
      ensures m[i] == n[i]
    {
    }
  }
}
