/** Finite sums of reals, the arithmetic behind `torch.sum` in the model. */
module RealSums {

  /** The sum of `s`, accumulated from the left. */
  function Sum(s: seq<real>): real
  {
    if |s| == 0 then 0.0 else Sum(s[..|s| - 1]) + s[|s| - 1]
  }

  /** Every element of `s` multiplied by `k`. */
  function Scaled(s: seq<real>, k: real): seq<real>
  {
    seq(|s|, i requires 0 <= i < |s| => s[i] * k)
  }

  /** Pointwise sum of two sequences of equal length. */
  function Added(s: seq<real>, t: seq<real>): seq<real>
    requires |s| == |t|
  {
    seq(|s|, i requires 0 <= i < |s| => s[i] + t[i])
  }

  /** Scaling every element scales the sum. */
  lemma {:induction false} SumScaled(s: seq<real>, k: real)
    ensures Sum(Scaled(s, k)) == Sum(s) * k
  {
    if |s| > 0 {
      var n := |s| - 1;
      assert forall i :: 0 <= i < n ==> Scaled(s, k)[..n][i] == Scaled(s[..n], k)[i];
      assert Scaled(s, k)[..n] == Scaled(s[..n], k);
      SumScaled(s[..n], k);
    }
  }

  /** The sum of a pointwise sum is the sum of the sums. */
  lemma {:induction false} SumAdded(s: seq<real>, t: seq<real>)
    requires |s| == |t|
    ensures Sum(Added(s, t)) == Sum(s) + Sum(t)
  {
    if |s| > 0 {
      var n := |s| - 1;
      assert forall i :: 0 <= i < n ==> Added(s, t)[..n][i] == Added(s[..n], t[..n])[i];
      assert Added(s, t)[..n] == Added(s[..n], t[..n]);
      SumAdded(s[..n], t[..n]);
    }
  }

  /** A sum of positive numbers over a non-empty sequence is positive. */
  lemma {:induction false} SumPositive(s: seq<real>)
    requires |s| > 0
    requires forall i :: 0 <= i < |s| ==> s[i] > 0.0
    ensures Sum(s) > 0.0
  {
    if |s| > 1 {
      SumPositive(s[..|s| - 1]);
    }
  }

  /** `n` copies of `x` sum to `n * x`. */
  lemma {:induction false} SumConstant(s: seq<real>, x: real)
    requires forall i :: 0 <= i < |s| ==> s[i] == x
    ensures Sum(s) == |s| as real * x
  {
    if |s| > 0 {
      SumConstant(s[..|s| - 1], x);
    }
  }

  /** A sum of `n` numbers between `lo` and `hi` lies between `n * lo` and `n * hi`. */
  lemma {:induction false} SumBounds(s: seq<real>, lo: real, hi: real)
    requires forall i :: 0 <= i < |s| ==> lo <= s[i] <= hi
    ensures |s| as real * lo <= Sum(s) <= |s| as real * hi
  {
    if |s| > 0 {
      var n := |s| - 1;
      SumBounds(s[..n], lo, hi);
      assert |s| as real * lo == n as real * lo + lo;
      assert |s| as real * hi == n as real * hi + hi;
    }
  }
}
