/**
 * The Sinkhorn-Knopp normalisation `distributed_sinkhorn` (main_uota.py:397-412)
 * on one worker, so that every `dist.all_reduce` is the identity and
 * `world_size` is 1. The input is the K x N matrix already exponentiated by the
 * caller (K prototypes, N samples); the output is the N x K matrix of soft
 * assignments. Entries are exact reals.
 */
module Sinkhorn {
  import opened RealSums
  import opened Grids
  import opened InfinityGuard

  /** A K x N matrix of reals, row by row. */
  type Matrix = seq<seq<real>>

  predicate Positive(m: Matrix)
  {
    forall i, j :: 0 <= i < |m| && 0 <= j < |m[i]| ==> m[i][j] > 0.0
  }

  /** Column `j` of `m`. */
  function Column(m: Matrix, j: nat): seq<real>
    requires forall i :: 0 <= i < |m| ==> j < |m[i]|
  {
    seq(|m|, i requires 0 <= i < |m| => m[i][j])
  }

  /** `torch.sum(Q, dim=1)`: the sum of every row. */
  function RowSums(m: Matrix): seq<real>
  {
    seq(|m|, i requires 0 <= i < |m| => Sum(m[i]))
  }

  /** `torch.sum(Q, dim=0)`: the sum of every column. */
  function ColSums(m: Matrix, n: nat): seq<real>
    requires Shaped(m, |m|, n)
  {
    seq(n, j requires 0 <= j < n => Sum(Column(m, j)))
  }

  /** `torch.sum(Q)`: the sum of all entries. */
  function Total(m: Matrix): real
  {
    Sum(RowSums(m))
  }

  /** `Q /= t`. */
  function DivideAll(m: Matrix, t: real): Matrix
    requires t != 0.0
  {
    seq(|m|, i requires 0 <= i < |m| => seq(|m[i]|, j requires 0 <= j < |m[i]| => m[i][j] / t))
  }

  /** `Q *= u.unsqueeze(1)`: row `i` scaled by `u[i]`. */
  function ScaleRows(m: Matrix, u: seq<real>): Matrix
    requires |u| == |m|
  {
    seq(|m|, i requires 0 <= i < |m| => Scaled(m[i], u[i]))
  }

  /** `Q *= v.unsqueeze(0)`: column `j` scaled by `v[j]`. */
  function ScaleCols(m: Matrix, v: seq<real>): Matrix
    requires forall i :: 0 <= i < |m| ==> |m[i]| == |v|
  {
    seq(|m|, i requires 0 <= i < |m| => seq(|v|, j requires 0 <= j < |v| => m[i][j] * v[j]))
  }

  lemma ScaleRowsAt(m: Matrix, u: seq<real>, i: nat, j: nat)
    requires |u| == |m| && i < |m| && j < |m[i]|
    ensures ScaleRows(m, u)[i][j] == m[i][j] * u[i]
  {
  }

  /** `c / s`, elementwise, for sums that are not zero. */
  function Quotients(c: real, s: seq<real>): seq<real>
    requires forall j :: 0 <= j < |s| ==> s[j] != 0.0
  {
    seq(|s|, j requires 0 <= j < |s| => c / s[j])
  }

  /** `r / u` for the row sums `u`: a zero sum gives an infinity. */
  function RowFactors(m: Matrix, r: real): seq<Entry>
  {
    seq(|m|, i requires 0 <= i < |m| => if Sum(m[i]) == 0.0 then PosInf else Fin(r / Sum(m[i])))
  }

  /** The row half of one iteration: `u = shoot_infs(r / u); Q *= u.unsqueeze(1)`. */
  function RowStep(m: Matrix, k: nat): Matrix
    requires |m| == k > 0
  {
    ScaleRows(m, Reals(Shoot(RowFactors(m, 1.0 / k as real))))
  }

  /** The column half of one iteration: `Q *= (c / torch.sum(Q, dim=0)).unsqueeze(0)`. */
  function ColStep(m: Matrix, n: nat): Matrix
    requires Shaped(m, |m|, n) && n > 0
    requires forall j :: 0 <= j < n ==> ColSums(m, n)[j] != 0.0
  {
    ScaleCols(m, Quotients(1.0 / n as real, ColSums(m, n)))
  }

  // ------------------------------------------------------------- positivity

  lemma ProductPositive(x: real, y: real)
    requires x > 0.0 && y > 0.0
    ensures x * y > 0.0
  {
  }

  lemma QuotientIsProduct(x: real, t: real)
    requires t != 0.0
    ensures x / t == x * (1.0 / t)
  {
  }

  lemma Cancel(s: real, c: real)
    requires s != 0.0
    ensures s * (c / s) == c
  {
  }

  /** For a positive matrix, every row factor is finite and positive, so the guard changes nothing. */
  lemma RowFactorsPositive(m: Matrix, r: real)
    requires Positive(m) && r > 0.0
    requires forall i :: 0 <= i < |m| ==> |m[i]| > 0
    ensures Shoot(RowFactors(m, r)) == RowFactors(m, r)
    ensures forall i :: 0 <= i < |m| ==> Sum(m[i]) > 0.0 && Reals(RowFactors(m, r))[i] == r / Sum(m[i]) > 0.0
  {
    var f := RowFactors(m, r);
    forall i | 0 <= i < |m|
      ensures Sum(m[i]) > 0.0 && f[i] == Fin(r / Sum(m[i])) && r / Sum(m[i]) > 0.0
    {
      SumPositive(m[i]);
    }
    ShootSpec(f);
  }

  lemma ColSumsPositive(m: Matrix, k: nat, n: nat)
    requires Shaped(m, k, n) && k > 0 && Positive(m)
    ensures forall j :: 0 <= j < n ==> ColSums(m, n)[j] > 0.0
  {
    forall j | 0 <= j < n
      ensures ColSums(m, n)[j] > 0.0
    {
      SumPositive(Column(m, j));
    }
  }

  lemma RowStepPositive(m: Matrix, k: nat, n: nat)
    requires Shaped(m, k, n) && k > 0 && n > 0 && Positive(m)
    ensures Shaped(RowStep(m, k), k, n) && Positive(RowStep(m, k))
  {
    var r := 1.0 / k as real;
    RowFactorsPositive(m, r);
    var u := Reals(Shoot(RowFactors(m, r)));
    forall i, j | 0 <= i < k && 0 <= j < n
      ensures RowStep(m, k)[i][j] > 0.0
    {
      ProductPositive(m[i][j], u[i]);
    }
  }

  lemma ColStepPositive(m: Matrix, k: nat, n: nat)
    requires Shaped(m, k, n) && k > 0 && n > 0 && Positive(m)
    ensures forall j :: 0 <= j < n ==> ColSums(m, n)[j] != 0.0
    ensures Shaped(ColStep(m, n), k, n) && Positive(ColStep(m, n))
  {
    ColSumsPositive(m, k, n);
    var v := Quotients(1.0 / n as real, ColSums(m, n));
    forall i, j | 0 <= i < k && 0 <= j < n
      ensures ColStep(m, n)[i][j] > 0.0
    {
      assert v[j] > 0.0;
      ProductPositive(m[i][j], v[j]);
    }
  }

  // ------------------------------------------------------------- the algorithm

  /** One iteration of the loop at main_uota.py:405-411. */
  function Step(m: Matrix, k: nat, n: nat): (r: Matrix)
    requires Shaped(m, k, n) && k > 0 && n > 0 && Positive(m)
    ensures Shaped(r, k, n) && Positive(r)
  {
    RowStepPositive(m, k, n);
    var m1 := RowStep(m, k);
    ColStepPositive(m1, k, n);
    ColStep(m1, n)
  }

  /** `iters` iterations of the loop. */
  function Iterate(m: Matrix, k: nat, n: nat, iters: nat): (r: Matrix)
    requires Shaped(m, k, n) && k > 0 && n > 0 && Positive(m)
    ensures Shaped(r, k, n) && Positive(r)
  {
    if iters == 0 then m else Step(Iterate(m, k, n, iters - 1), k, n)
  }

  /** `(Q / torch.sum(Q, dim=0, keepdim=True)).t()`: the N x K output. */
  function Finalize(m: Matrix, k: nat, n: nat): Matrix
    requires Shaped(m, k, n) && k > 0 && Positive(m)
  {
    ColSumsPositive(m, k, n);
    var s := ColSums(m, n);
    seq(n, j requires 0 <= j < n => seq(k, i requires 0 <= i < k => m[i][j] / s[j]))
  }

  /**
   * What the exponentiation produces: every entry is a positive number or
   * `+inf`, and at least one entry is finite, so that the guarded matrix is
   * positive.
   */
  predicate Exponentiated(g: seq<seq<Entry>>)
  {
    && (forall i, j :: 0 <= i < |g| && 0 <= j < |g[i]| ==>
          g[i][j] == PosInf || (g[i][j].Fin? && g[i][j].value > 0.0))
    && (exists i, j :: 0 <= i < |g| && 0 <= j < |g[i]| && g[i][j].Fin?)
  }

  /** After the guard, an exponentiated matrix is a positive real matrix. */
  lemma GuardedPositive(g: seq<seq<Entry>>, k: nat, n: nat)
    requires Shaped(g, k, n) && Exponentiated(g)
    ensures k > 0 && n > 0
    ensures Shaped(Reals2(Shoot2(g, k, n)), k, n) && Positive(Reals2(Shoot2(g, k, n)))
  {
    var x, y :| 0 <= x < |g| && 0 <= y < |g[x]| && g[x][y].Fin?;
    Shoot2Spec(g, k, n);
    var h := Shoot2(g, k, n);
    forall i, j | 0 <= i < k && 0 <= j < n
      ensures Reals2(h)[i][j] > 0.0
    {
      assert Reals2(h)[i][j] == h[i][j].value;
      if IsInf(g[i][j]) {
        assert IsCeiling2(g, h[i][j].value);
        assert g[x][y].value <= h[i][j].value;
      }
    }
  }

  /** The guarded input divided by its total: `Q = shoot_infs(Q); Q /= torch.sum(Q)`. */
  function Normalized(g: seq<seq<Entry>>, k: nat, n: nat): (r: Matrix)
    requires Shaped(g, k, n) && Exponentiated(g)
    ensures k > 0 && n > 0 && Shaped(r, k, n)
  {
    GuardedPositive(g, k, n);
    var q := Reals2(Shoot2(g, k, n));
    TotalPositive(q, k, n);
    DivideAll(q, Total(q))
  }

  /** What `distributed_sinkhorn(Q, iters)` returns, one worker. */
  function Assignment(g: seq<seq<Entry>>, k: nat, n: nat, iters: nat): Matrix
    requires Shaped(g, k, n) && Exponentiated(g)
  {
    NormalizedPositive(g, k, n);
    Finalize(Iterate(Normalized(g, k, n), k, n, iters), k, n)
  }

  // ------------------------------------------------------------- sums

  lemma TotalPositive(m: Matrix, k: nat, n: nat)
    requires Shaped(m, k, n) && k > 0 && n > 0 && Positive(m)
    ensures Total(m) > 0.0
  {
    forall i | 0 <= i < k
      ensures RowSums(m)[i] > 0.0
    {
      SumPositive(m[i]);
    }
    SumPositive(RowSums(m));
  }

  lemma NormalizedPositive(g: seq<seq<Entry>>, k: nat, n: nat)
    requires Shaped(g, k, n) && Exponentiated(g)
    ensures Positive(Normalized(g, k, n))
  {
    GuardedPositive(g, k, n);
    var q := Reals2(Shoot2(g, k, n));
    TotalPositive(q, k, n);
  }

  /** Row sums of `Q / t` are the row sums of `Q` divided by `t`. */
  lemma RowSumsDivided(m: Matrix, t: real)
    requires t != 0.0
    ensures RowSums(DivideAll(m, t)) == Scaled(RowSums(m), 1.0 / t)
  {
    var d := DivideAll(m, t);
    var lhs, rhs := RowSums(d), Scaled(RowSums(m), 1.0 / t);
    forall i | 0 <= i < |m|
      ensures lhs[i] == rhs[i]
    {
      var row := Scaled(m[i], 1.0 / t);
      forall j | 0 <= j < |m[i]|
        ensures d[i][j] == row[j]
      {
        QuotientIsProduct(m[i][j], t);
      }
      assert d[i] == row;
      SumScaled(m[i], 1.0 / t);
    }
  }

  /** Dividing by the total leaves a matrix whose total is one. */
  lemma DividedTotal(m: Matrix)
    requires Total(m) != 0.0
    ensures Total(DivideAll(m, Total(m))) == 1.0
  {
    var t := Total(m);
    RowSumsDivided(m, t);
    SumScaled(RowSums(m), 1.0 / t);
    Cancel(t, 1.0);
  }

  /** After the initial division the whole matrix sums to one (main_uota.py:400-402). */
  lemma NormalizedTotal(g: seq<seq<Entry>>, k: nat, n: nat)
    requires Shaped(g, k, n) && Exponentiated(g)
    ensures Total(Normalized(g, k, n)) == 1.0
    ensures Positive(Normalized(g, k, n))
  {
    NormalizedPositive(g, k, n);
    GuardedPositive(g, k, n);
    var q := Reals2(Shoot2(g, k, n));
    TotalPositive(q, k, n);
    DividedTotal(q);
  }

  /** After the row half of an iteration every row sums to `r = 1/K` (main_uota.py:406-410). */
  lemma RowStepRowSums(m: Matrix, k: nat, n: nat)
    requires Shaped(m, k, n) && k > 0 && n > 0 && Positive(m)
    ensures forall i :: 0 <= i < k ==> Sum(RowStep(m, k)[i]) == 1.0 / k as real
  {
    var r := 1.0 / k as real;
    RowFactorsPositive(m, r);
    forall i | 0 <= i < k
      ensures Sum(RowStep(m, k)[i]) == r
    {
      var u := Reals(Shoot(RowFactors(m, r)))[i];
      SumScaled(m[i], u);
      SumPositive(m[i]);
    }
  }

  /** Column `j` of a column-scaled matrix is column `j` scaled. */
  lemma ColumnOfScaleCols(m: Matrix, v: seq<real>, j: nat)
    requires forall i :: 0 <= i < |m| ==> |m[i]| == |v|
    requires j < |v|
    ensures Column(ScaleCols(m, v), j) == Scaled(Column(m, j), v[j])
  {
    assert forall i :: 0 <= i < |m| ==> Column(ScaleCols(m, v), j)[i] == Scaled(Column(m, j), v[j])[i];
  }

  /** After the column half every column sums to `c = 1/N`. */
  lemma ColStepColumnSums(m: Matrix, n: nat)
    requires Shaped(m, |m|, n) && n > 0
    requires forall j :: 0 <= j < n ==> ColSums(m, n)[j] != 0.0
    ensures Shaped(ColStep(m, n), |m|, n)
    ensures forall j :: 0 <= j < n ==> ColSums(ColStep(m, n), n)[j] == 1.0 / n as real
  {
    var c := 1.0 / n as real;
    var v := Quotients(c, ColSums(m, n));
    forall j | 0 <= j < n
      ensures Sum(Column(ColStep(m, n), j)) == c
    {
      ColumnOfScaleCols(m, v, j);
      SumScaled(Column(m, j), v[j]);
      Cancel(Sum(Column(m, j)), c);
    }
  }

  /** After every iteration each column sums to `c = 1/N` (main_uota.py:411). */
  lemma StepColumnSums(m: Matrix, k: nat, n: nat)
    requires Shaped(m, k, n) && k > 0 && n > 0 && Positive(m)
    ensures forall j :: 0 <= j < n ==> ColSums(Step(m, k, n), n)[j] == 1.0 / n as real
  {
    RowStepPositive(m, k, n);
    ColStepPositive(RowStep(m, k), k, n);
    ColStepColumnSums(RowStep(m, k), n);
  }

  /** Summing by rows and summing by columns agree. */
  lemma {:induction false} TotalByColumns(m: Matrix, n: nat)
    requires Shaped(m, |m|, n)
    ensures Total(m) == Sum(ColSums(m, n))
  {
    if |m| == 0 {
      SumConstant(ColSums(m, n), 0.0);
    } else {
      var k := |m| - 1;
      var front := m[..k];
      TotalByColumns(front, n);
      assert RowSums(m)[..k] == RowSums(front);
      forall j | 0 <= j < n
        ensures ColSums(m, n)[j] == Added(ColSums(front, n), m[k])[j]
      {
        assert Column(m, j)[..k] == Column(front, j);
      }
      assert ColSums(m, n) == Added(ColSums(front, n), m[k]);
      SumAdded(ColSums(front, n), m[k]);
    }
  }

  /** After at least one iteration the whole matrix again sums to one. */
  lemma IterateTotal(m: Matrix, k: nat, n: nat, iters: nat)
    requires Shaped(m, k, n) && k > 0 && n > 0 && Positive(m)
    requires iters > 0
    ensures forall j :: 0 <= j < n ==> ColSums(Iterate(m, k, n, iters), n)[j] == 1.0 / n as real
    ensures Total(Iterate(m, k, n, iters)) == 1.0
  {
    var prev := Iterate(m, k, n, iters - 1);
    StepColumnSums(prev, k, n);
    var r := Iterate(m, k, n, iters);
    TotalByColumns(r, n);
    SumConstant(ColSums(r, n), 1.0 / n as real);
  }

  /** The final normalisation and transpose give an N x K positive matrix whose rows sum to one. */
  lemma FinalizeSpec(m: Matrix, k: nat, n: nat)
    requires Shaped(m, k, n) && k > 0 && Positive(m)
    ensures Shaped(Finalize(m, k, n), n, k)
    ensures Positive(Finalize(m, k, n))
    ensures forall j :: 0 <= j < n ==> Sum(Finalize(m, k, n)[j]) == 1.0
  {
    ColSumsPositive(m, k, n);
    var s := ColSums(m, n);
    var p := Finalize(m, k, n);
    forall j | 0 <= j < n
      ensures Sum(p[j]) == 1.0
      ensures forall i :: 0 <= i < k ==> p[j][i] > 0.0
    {
      forall i | 0 <= i < k
        ensures p[j][i] == Scaled(Column(m, j), 1.0 / s[j])[i] && p[j][i] > 0.0
      {
        QuotientIsProduct(m[i][j], s[j]);
        ProductPositive(m[i][j], 1.0 / s[j]);
      }
      assert p[j] == Scaled(Column(m, j), 1.0 / s[j]);
      SumScaled(Column(m, j), 1.0 / s[j]);
      Cancel(s[j], 1.0);
    }
  }

  /**
   * The output of `distributed_sinkhorn` is N x K, positive, and every row
   * (the assignment of one sample over the K prototypes) sums to one.
   */
  lemma AssignmentSpec(g: seq<seq<Entry>>, k: nat, n: nat, iters: nat)
    requires Shaped(g, k, n) && Exponentiated(g)
    ensures Shaped(Assignment(g, k, n, iters), n, k)
    ensures Positive(Assignment(g, k, n, iters))
    ensures forall j :: 0 <= j < n ==> Sum(Assignment(g, k, n, iters)[j]) == 1.0
  {
    NormalizedPositive(g, k, n);
    FinalizeSpec(Iterate(Normalized(g, k, n), k, n, iters), k, n);
  }

  // ------------------------------------------------------------- the method

  /** `Q /= t`, in place. */
  method DivideInPlace(w: array2<real>, t: real)
    requires t != 0.0
    modifies w
    ensures Cells(w) == DivideAll(old(Cells(w)), t)
  {
    forall i, j | 0 <= i < w.Length0 && 0 <= j < w.Length1 {
      w[i, j] := w[i, j] / t;
    }
    CellsEqual(Cells(w), DivideAll(old(Cells(w)), t), w.Length0, w.Length1);
  }

  /** A matrix that agrees cell by cell with `ScaleRows(m, u)` is `ScaleRows(m, u)`. */
  lemma ScaleRowsFrom(a: Matrix, m: Matrix, u: seq<real>, n: nat)
    requires Shaped(m, |u|, n) && Shaped(a, |u|, n)
    requires forall i, j :: 0 <= i < |u| && 0 <= j < n ==> a[i][j] == m[i][j] * u[i]
    ensures a == ScaleRows(m, u)
  {
    forall i, j | 0 <= i < |u| && 0 <= j < n
      ensures ScaleRows(m, u)[i][j] == m[i][j] * u[i]
    {
      ScaleRowsAt(m, u, i, j);
    }
    CellsEqual(a, ScaleRows(m, u), |u|, n);
  }

  /** A matrix that agrees cell by cell with `ScaleCols(m, v)` is `ScaleCols(m, v)`. */
  lemma ScaleColsFrom(a: Matrix, m: Matrix, v: seq<real>)
    requires Shaped(m, |m|, |v|) && Shaped(a, |m|, |v|)
    requires forall i, j :: 0 <= i < |m| && 0 <= j < |v| ==> a[i][j] == m[i][j] * v[j]
    ensures a == ScaleCols(m, v)
  {
    assert forall i, j :: 0 <= i < |m| && 0 <= j < |v| ==> ScaleCols(m, v)[i][j] == m[i][j] * v[j];
    CellsEqual(a, ScaleCols(m, v), |m|, |v|);
  }

  /** `Q *= u.unsqueeze(1)`, in place. */
  method ScaleRowsInPlace(w: array2<real>, u: seq<real>)
    requires |u| == w.Length0
    modifies w
    ensures Cells(w) == ScaleRows(old(Cells(w)), u)
  {
    ghost var m := Cells(w);
    forall i, j | 0 <= i < w.Length0 && 0 <= j < w.Length1 {
      w[i, j] := w[i, j] * u[i];
    }
    assert forall i, j :: 0 <= i < w.Length0 && 0 <= j < w.Length1 ==> w[i, j] == m[i][j] * u[i];
    ScaleRowsFrom(Cells(w), m, u, w.Length1);
  }

  /** `Q *= v.unsqueeze(0)`, in place. */
  method ScaleColsInPlace(w: array2<real>, v: seq<real>)
    requires |v| == w.Length1
    modifies w
    ensures Cells(w) == ScaleCols(old(Cells(w)), v)
  {
    ghost var m := Cells(w);
    forall i, j | 0 <= i < w.Length0 && 0 <= j < w.Length1 {
      w[i, j] := w[i, j] * v[j];
    }
    assert forall i, j :: 0 <= i < w.Length0 && 0 <= j < w.Length1 ==> w[i, j] == m[i][j] * v[j];
    ScaleColsFrom(Cells(w), m, v);
  }

  /** `(Q / torch.sum(Q, dim=0, keepdim=True)).t()` into a fresh N x K tensor. */
  method Transposed(w: array2<real>) returns (p: array2<real>)
    requires w.Length0 > 0 && Positive(Cells(w))
    ensures fresh(p)
    ensures Cells(p) == Finalize(Cells(w), w.Length0, w.Length1)
  {
    var k, n := w.Length0, w.Length1;
    ColSumsPositive(Cells(w), k, n);
    var s := ColSums(Cells(w), n);
    p := new real[n, k];
    forall j, i | 0 <= j < n && 0 <= i < k {
      p[j, i] := w[i, j] / s[j];
    }
    CellsEqual(Cells(p), Finalize(Cells(w), k, n), n, k);
  }

  /** The body of `for it in range(nmb_iters)`, rescaling `w` in place. */
  method OneIteration(w: array2<real>, r: real, c: real)
    requires w.Length0 > 0 && w.Length1 > 0 && Positive(Cells(w))
    requires r == 1.0 / w.Length0 as real && c == 1.0 / w.Length1 as real
    modifies w
    ensures Cells(w) == Step(old(Cells(w)), w.Length0, w.Length1)
  {
    var k, n := w.Length0, w.Length1;
    ghost var m := Cells(w);
    var u := RowSums(Cells(w));
    var f := new Entry[k](i requires 0 <= i < k => if u[i] == 0.0 then PosInf else Fin(r / u[i]));
    assert f[..] == RowFactors(m, r);
    ShootInfs(f);
    ShootSpec(RowFactors(m, r));
    ScaleRowsInPlace(w, Reals(f[..]));
    RowStepPositive(m, k, n);
    ghost var m1 := Cells(w);
    ColStepPositive(m1, k, n);
    var s := ColSums(Cells(w), n);
    ScaleColsInPlace(w, Quotients(c, s));
  }

  /** The guarded values of `q` in a fresh real-valued tensor. */
  method RealCopy(q: array2<Entry>) returns (w: array2<real>)
    ensures fresh(w)
    ensures Cells(w) == Reals2(Cells(q))
  {
    w := new real[q.Length0, q.Length1];
    forall i, j | 0 <= i < q.Length0 && 0 <= j < q.Length1 {
      w[i, j] := Zeroed(q[i, j]);
    }
    CellsEqual(Cells(w), Reals2(Cells(q)), q.Length0, q.Length1);
  }

  /** `Q = shoot_infs(Q); Q /= torch.sum(Q)`: the guarded input, divided by its total. */
  method Prepare(q: array2<Entry>) returns (w: array2<real>)
    requires Exponentiated(Cells(q))
    modifies q
    ensures Cells(q) == Shoot2(old(Cells(q)), q.Length0, q.Length1)
    ensures fresh(w)
    ensures Cells(w) == Normalized(old(Cells(q)), q.Length0, q.Length1)
  {
    ghost var g := Cells(q);
    var k, n := q.Length0, q.Length1;
    GuardedPositive(g, k, n);
    ShootInfs2(q);
    w := RealCopy(q);
    TotalPositive(Cells(w), k, n);
    DivideInPlace(w, Total(Cells(w)));
  }

  /** `for it in range(nmb_iters)`: the rescalings, in place. */
  method Iterations(w: array2<real>, iters: nat)
    requires w.Length0 > 0 && w.Length1 > 0 && Positive(Cells(w))
    modifies w
    ensures Cells(w) == Iterate(old(Cells(w)), w.Length0, w.Length1, iters)
  {
    var k, n := w.Length0, w.Length1;
    var r := 1.0 / k as real;
    var c := 1.0 / n as real;
    for it := 0 to iters
      invariant Cells(w) == Iterate(old(Cells(w)), k, n, it)
    {
      OneIteration(w, r, c);
    }
  }

  /**
   * `distributed_sinkhorn(Q, iters)` with one worker. The guard rewrites the
   * caller's tensor in place; the rescalings work on a real-valued buffer
   * holding the guarded values.
   */
  method DistributedSinkhorn(q: array2<Entry>, iters: nat) returns (p: array2<real>)
    requires Exponentiated(Cells(q))
    modifies q
    ensures Cells(q) == Shoot2(old(Cells(q)), q.Length0, q.Length1)
    ensures fresh(p)
    ensures Cells(p) == Assignment(old(Cells(q)), q.Length0, q.Length1, iters)
  {
    ghost var g := Cells(q);
    var w := Prepare(q);
    NormalizedPositive(g, q.Length0, q.Length1);
    assert |Cells(w)| == w.Length0 == q.Length0 > 0;
    assert |Cells(w)[0]| == w.Length1 == q.Length1 > 0;
    Iterations(w, iters);
    p := Transposed(w);
  }
}
