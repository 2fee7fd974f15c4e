/**
 * The integer conditions that switch parts of training on and off in
 * main_uota.py: the global iteration index (line 301), the UOTA weighting
 * switch (line 346), and the prototype freeze (line 363).
 */
module Gates {
  import opened IntArith

  /** `epoch * len(train_loader) + it`: the index of step `it` of epoch `epoch` over the whole run. */
  function IterationIndex(epoch: nat, itersPerEpoch: nat, it: nat): nat
  {
    epoch * itersPerEpoch + it
  }

  /**
   * Within an epoch of `itersPerEpoch` steps, the index orders steps
   * lexicographically by (epoch, step); so distinct steps get distinct
   * indices, and the index recovers the epoch and the step.
   */
  lemma IterationIndexOrder(e1: nat, it1: nat, e2: nat, it2: nat, itersPerEpoch: nat)
    requires it1 < itersPerEpoch && it2 < itersPerEpoch
    ensures IterationIndex(e1, itersPerEpoch, it1) < IterationIndex(e2, itersPerEpoch, it2)
        <==> e1 < e2 || (e1 == e2 && it1 < it2)
    ensures IterationIndex(e1, itersPerEpoch, it1) == IterationIndex(e2, itersPerEpoch, it2)
        <==> e1 == e2 && it1 == it2
    ensures IterationIndex(e1, itersPerEpoch, it1) / itersPerEpoch == e1
    ensures IterationIndex(e1, itersPerEpoch, it1) % itersPerEpoch == it1
  {
    var n := itersPerEpoch;
    if e1 < e2 {
      MultiplyOrder(e1 + 1, e2, n);
      assert (e1 + 1) * n == e1 * n + n;
    } else if e2 < e1 {
      MultiplyOrder(e2 + 1, e1, n);
      assert (e2 + 1) * n == e2 * n + n;
    }
    DivisionUnique(IterationIndex(e1, n, it1), n, e1, it1);
  }

  /** `epoch + 1 > args.epoch_uota_starts`: whether the per-sample weights enter the loss. */
  predicate UotaActive(epoch: int, epochUotaStarts: int)
  {
    epoch + 1 > epochUotaStarts
  }

  /**
   * The weighting is on exactly from epoch `epoch_uota_starts` on, so the
   * epoch in which the learning-rate schedule is rebuilt (`epoch ==
   * epoch_uota_starts`, line 252) is the first weighted epoch, and once on
   * it stays on.
   */
  lemma UotaActiveSpec(epoch: int, later: int, epochUotaStarts: int)
    requires epoch <= later
    ensures UotaActive(epoch, epochUotaStarts) <==> epoch >= epochUotaStarts
    ensures UotaActive(epochUotaStarts, epochUotaStarts) && !UotaActive(epochUotaStarts - 1, epochUotaStarts)
    ensures UotaActive(epoch, epochUotaStarts) ==> UotaActive(later, epochUotaStarts)
  {
  }

  /** `iteration < args.freeze_prototypes_niters`: whether the prototype gradients are discarded. */
  predicate PrototypesFrozen(iteration: int, freezeNiters: int)
  {
    iteration < freezeNiters
  }

  /**
   * The frozen steps are an initial segment of training: step `it2` of
   * epoch `e2` is frozen iff its index is below the freeze count, and if a
   * step is frozen, so is every earlier one.
   */
  lemma FrozenPrefix(e1: nat, it1: nat, e2: nat, it2: nat, itersPerEpoch: nat, freezeNiters: int)
    requires it1 < itersPerEpoch && it2 < itersPerEpoch
    requires e1 < e2 || (e1 == e2 && it1 <= it2)
    ensures PrototypesFrozen(IterationIndex(e2, itersPerEpoch, it2), freezeNiters)
        ==> PrototypesFrozen(IterationIndex(e1, itersPerEpoch, it1), freezeNiters)
    ensures freezeNiters <= 0 ==> !PrototypesFrozen(IterationIndex(e2, itersPerEpoch, it2), freezeNiters)
  {
    IterationIndexOrder(e1, it1, e2, it2, itersPerEpoch);
  }
}
