/**
 * The structure of the training loss of one step in main_uota.py
 * (lines 318, 344-353): for every assigned crop, the prediction terms of
 * every other crop are subtracted and divided by their count, and the result
 * is averaged over the assigned crops. The per-sample terms themselves
 * (softmax, log) are inputs here.
 */
module CropLoss {
  import opened RealSums
  import opened Gates

  datatype Option<T> = None | Some(value: T)

  /**
   * `np.delete(np.arange(total), crop)`: every crop index but `crop`, in
   * increasing order; `None` when `crop` is out of range, where numpy raises
   * an index error.
   */
  function OtherCrops(total: nat, crop: nat): Option<seq<nat>>
  {
    if crop >= total then None
    else Some(seq(total - 1, k requires 0 <= k < total - 1 => if k < crop then k as nat else (k + 1) as nat))
  }

  /**
   * For a crop in range, the other crops are `total - 1` strictly increasing
   * indices, each below `total`, none equal to `crop`, and every such index
   * is among them, so every other crop is visited exactly once.
   */
  lemma OtherCropsSpec(total: nat, crop: nat)
    ensures OtherCrops(total, crop).None? <==> crop >= total
    ensures crop < total ==>
      var r := OtherCrops(total, crop).value;
      && |r| == total - 1
      && (forall k :: 0 <= k < |r| ==> r[k] < total && r[k] != crop)
      && (forall k, l :: 0 <= k < l < |r| ==> r[k] < r[l])
      && (forall v: nat :: v < total && v != crop ==> v in r)
  {
    if crop < total {
      var r := OtherCrops(total, crop).value;
      forall v: nat | v < total && v != crop
        ensures v in r
      {
        if v < crop {
          assert r[v] == v;
        } else {
          assert r[v - 1] == v;
        }
      }
    }
  }

  /** The entries of `row` at the positions `idx`, in order. */
  function Picked(row: seq<real>, idx: seq<nat>): (r: seq<real>)
    requires forall k :: 0 <= k < |idx| ==> idx[k] < |row|
    ensures |r| == |idx|
  {
    seq(|idx|, k requires 0 <= k < |idx| => row[idx[k]])
  }

  /**
   * The loss of one assigned crop: minus the sum of `row` over the other
   * crops, divided by `total - 1`.
   */
  function CropLossValue(row: seq<real>, total: nat, crop: nat): real
    requires 2 <= total && crop < total && |row| == total
  {
    OtherCropsSpec(total, crop);
    -Sum(Picked(row, OtherCrops(total, crop).value)) / (total - 1) as real
  }

  /** The crop losses of the first `n` assigned crops. */
  function CropLosses(crops: seq<nat>, total: nat, terms: seq<seq<real>>, n: nat): (r: seq<real>)
    requires (n == 0 || 2 <= total) && n <= |crops| == |terms|
    requires forall i :: 0 <= i < n ==> crops[i] < total && |terms[i]| == total
    ensures |r| == n
  {
    seq(n, i requires 0 <= i < n => CropLossValue(terms[i], total, crops[i]))
  }

  /** Every assigned crop is a crop index and every row holds one term per crop. */
  predicate WellFormed(crops: seq<nat>, total: nat, terms: seq<seq<real>>)
  {
    && |terms| == |crops|
    && (forall i :: 0 <= i < |crops| ==> crops[i] < total)
    && (forall i :: 0 <= i < |terms| ==> |terms[i]| == total)
  }

  /**
   * The loss of one step, where `terms[i][v]` is the batch mean of the
   * prediction of group `i` from crop `v`; `None` when the step has no finite
   * loss: a crop out of range, a single crop (division of zero by zero) or
   * no assigned crop (division by zero).
   */
  function StepLoss(crops: seq<nat>, total: nat, terms: seq<seq<real>>): Option<real>
    requires |terms| == |crops| && forall i :: 0 <= i < |terms| ==> |terms[i]| == total
  {
    if !WellFormed(crops, total, terms) || total < 2 || |crops| == 0 then None
    else Some(Sum(CropLosses(crops, total, terms, |crops|)) / |crops| as real)
  }

  /** `subloss -= term` over the other crops `others`, starting from zero. */
  method SubLoss(row: seq<real>, others: seq<nat>) returns (subloss: real)
    requires forall k :: 0 <= k < |others| ==> others[k] < |row|
    ensures subloss == -Sum(Picked(row, others))
  {
    ghost var picked := Picked(row, others);
    subloss := 0.0;
    for k := 0 to |others|
      invariant subloss == -Sum(picked[..k])
    {
      assert picked[..k + 1][..k] == picked[..k];
      subloss := subloss - row[others[k]];
    }
    assert picked[..|others|] == picked;
  }

  /**
   * The loop of lines 318 and 344-353 over already computed terms:
   * `subloss -= term` for every other crop, `loss += subloss / (T - 1)`
   * for every assigned crop, then `loss /= len(crops_for_assign)`.
   */
  method ComputeLoss(crops: seq<nat>, total: nat, terms: seq<seq<real>>) returns (loss: Option<real>)
    requires |terms| == |crops| && forall i :: 0 <= i < |terms| ==> |terms[i]| == total
    ensures loss == StepLoss(crops, total, terms)
  {
    var acc := 0.0;
    for i := 0 to |crops|
      invariant 2 <= total || i == 0
      invariant forall j :: 0 <= j < i ==> crops[j] < total
      invariant acc == Sum(CropLosses(crops, total, terms, i))
    {
      var others := OtherCrops(total, crops[i]);
      if others.None? {
        return None;
      }
      OtherCropsSpec(total, crops[i]);
      var subloss := SubLoss(terms[i], others.value);
      if total < 2 {
        return None;
      }
      ghost var next := CropLosses(crops, total, terms, i + 1);
      assert next[..i] == CropLosses(crops, total, terms, i);
      assert next[i] == subloss / (total - 1) as real;
      acc := acc + subloss / (total - 1) as real;
    }
    if |crops| == 0 {
      return None;
    }
    loss := Some(acc / |crops| as real);
  }

  /**
   * The loss is an average: when every term lies between `lo` and `hi`, the
   * loss lies between `-hi` and `-lo` (so equal terms `x` give exactly `-x`).
   */
  lemma LossBounds(crops: seq<nat>, total: nat, terms: seq<seq<real>>, lo: real, hi: real)
    requires |terms| == |crops| && forall i :: 0 <= i < |terms| ==> |terms[i]| == total
    requires forall i, v :: 0 <= i < |terms| && 0 <= v < total ==> lo <= terms[i][v] <= hi
    requires StepLoss(crops, total, terms).Some?
    ensures -hi <= StepLoss(crops, total, terms).value <= -lo
  {
    assert WellFormed(crops, total, terms) && 2 <= total && |crops| > 0;
    var losses := CropLosses(crops, total, terms, |crops|);
    CropLossesBounds(crops, total, terms, lo, hi);
    SumBounds(losses, -hi, -lo);
    AverageBounds(Sum(losses), |crops| as real, -hi, -lo);
  }

  /** Every assigned crop's loss lies between `-hi` and `-lo` when every term does between `lo` and `hi`. */
  lemma CropLossesBounds(crops: seq<nat>, total: nat, terms: seq<seq<real>>, lo: real, hi: real)
    requires WellFormed(crops, total, terms) && 2 <= total
    requires forall i, v :: 0 <= i < |terms| && 0 <= v < total ==> lo <= terms[i][v] <= hi
    ensures forall i :: 0 <= i < |crops| ==> -hi <= CropLosses(crops, total, terms, |crops|)[i] <= -lo
  {
    var losses := CropLosses(crops, total, terms, |crops|);
    forall i | 0 <= i < |crops|
      ensures -hi <= losses[i] <= -lo
    {
      assert forall v :: 0 <= v < total ==> lo <= terms[i][v] <= hi;
      CropLossBounds(terms[i], total, crops[i], lo, hi);
    }
  }

  lemma CropLossBounds(row: seq<real>, total: nat, crop: nat, lo: real, hi: real)
    requires 2 <= total && crop < total && |row| == total
    requires forall v :: 0 <= v < total ==> lo <= row[v] <= hi
    ensures -hi <= CropLossValue(row, total, crop) <= -lo
  {
    OtherCropsSpec(total, crop);
    var picked := Picked(row, OtherCrops(total, crop).value);
    SumBounds(picked, lo, hi);
    AverageBounds(-Sum(picked), (total - 1) as real, -hi, -lo);
  }

  /** `s / n` lies between `lo` and `hi` when `s` lies between `n * lo` and `n * hi`. */
  lemma AverageBounds(s: real, n: real, lo: real, hi: real)
    requires n > 0.0 && n * lo <= s <= n * hi
    ensures lo <= s / n <= hi
  {
    assert s / n * n == s;
  }

  /**
   * A crop never predicts itself: the terms of each assigned crop against
   * itself do not enter the loss.
   */
  lemma OwnCropIgnored(crops: seq<nat>, total: nat, terms: seq<seq<real>>, other: seq<seq<real>>)
    requires |terms| == |crops| && forall i :: 0 <= i < |terms| ==> |terms[i]| == total
    requires |other| == |crops| && forall i :: 0 <= i < |other| ==> |other[i]| == total
    requires forall i, v :: 0 <= i < |crops| && 0 <= v < total && v != crops[i] ==> other[i][v] == terms[i][v]
    ensures StepLoss(crops, total, other) == StepLoss(crops, total, terms)
  {
    if WellFormed(crops, total, terms) && total >= 2 {
      forall i | 0 <= i < |crops|
        ensures CropLossValue(other[i], total, crops[i]) == CropLossValue(terms[i], total, crops[i])
      {
        OtherCropsSpec(total, crops[i]);
        var idx := OtherCrops(total, crops[i]).value;
        assert Picked(other[i], idx) == Picked(terms[i], idx);
      }
      assert CropLosses(crops, total, other, |crops|) == CropLosses(crops, total, terms, |crops|);
    }
  }

  // ------------------------------------------------------------- per-sample weights (lines 346-351)

  /** The products `x[n] * w[n]`. */
  function Weighted(x: seq<real>, w: seq<real>): (r: seq<real>)
    requires |x| == |w|
    ensures |r| == |x|
  {
    seq(|x|, n requires 0 <= n < |x| => x[n] * w[n])
  }

  /**
   * The batch mean of one prediction term: `(x * w).mean()` once the UOTA
   * weighting is active in `epoch`, `x.mean()` before.
   */
  function TermMean(x: seq<real>, w: seq<real>, epoch: int, epochUotaStarts: int): real
    requires |x| == |w| && |x| > 0
  {
    if UotaActive(epoch, epochUotaStarts) then Sum(Weighted(x, w)) / |x| as real
    else Sum(x) / |x| as real
  }

  /**
   * Before the UOTA epoch the weights play no part; after it, a sample of
   * weight zero (an arbitrated outlier) does not affect the mean, and unit
   * weights give the unweighted mean.
   */
  lemma TermMeanWeights(x: seq<real>, y: seq<real>, w: seq<real>, epoch: int, epochUotaStarts: int)
    requires |x| == |w| == |y| && |x| > 0
    requires forall n :: 0 <= n < |x| && w[n] != 0.0 ==> x[n] == y[n]
    ensures !UotaActive(epoch, epochUotaStarts) ==>
      TermMean(x, w, epoch, epochUotaStarts) == Sum(x) / |x| as real
    ensures UotaActive(epoch, epochUotaStarts) ==>
      TermMean(x, w, epoch, epochUotaStarts) == TermMean(y, w, epoch, epochUotaStarts)
    ensures (forall n :: 0 <= n < |w| ==> w[n] == 1.0) ==>
      TermMean(x, w, epoch, epochUotaStarts) == Sum(x) / |x| as real
  {
    if UotaActive(epoch, epochUotaStarts) {
      var wx, wy := Weighted(x, w), Weighted(y, w);
      forall n | 0 <= n < |x|
        ensures wx[n] == wy[n]
      {
        if w[n] == 0.0 {
          assert wx[n] == 0.0 == wy[n];
        }
      }
      assert wx == wy;
      if forall n :: 0 <= n < |w| ==> w[n] == 1.0 {
        assert wx == x;
      }
    }
  }
}
