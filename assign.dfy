/**
 * The assignment of one group in main_uota.py (lines 326-340): the scores of
 * the queued embeddings, when used, come before the scores of the current
 * batch, Sinkhorn balances all of them, and only the last `bs` rows of its
 * output, `[-bs:]`, are kept as the targets of the current batch.
 */
module Assignments {
  import opened RealSums
  import opened Grids
  import opened InfinityGuard
  import opened Sinkhorn

  /**
   * Python's `p[-bs:]`. Since `-0` is `0`, a zero `bs` keeps every row, and
   * so does a `bs` beyond the length.
   */
  function Retained<T>(p: seq<T>, bs: nat): seq<T>
  {
    if bs == 0 || bs >= |p| then p else p[|p| - bs..]
  }

  /**
   * When `history` rows precede a current batch of `bs > 0` rows, the kept
   * rows are exactly the current batch's, in order; with no history they are
   * everything.
   */
  lemma RetainedCurrent<T>(p: seq<T>, history: nat, bs: nat)
    requires |p| == history + bs && bs > 0
    ensures |Retained(p, bs)| == bs
    ensures forall r :: 0 <= r < bs ==> Retained(p, bs)[r] == p[history + r]
    ensures history == 0 ==> Retained(p, bs) == p
  {
  }

  /**
   * The kept Sinkhorn targets of a group whose `k x n` score matrix has
   * `history` queued columns before the `bs` current ones: `bs` rows of `k`
   * positive entries, each summing to 1, row `r` being the assignment of
   * sample `r` of the current batch.
   */
  lemma RetainedAssignment(g: seq<seq<Entry>>, k: nat, n: nat, iters: nat, history: nat, bs: nat)
    requires Shaped(g, k, n) && Exponentiated(g)
    requires n == history + bs && bs > 0
    ensures Shaped(Retained(Assignment(g, k, n, iters), bs), bs, k)
    ensures Positive(Retained(Assignment(g, k, n, iters), bs))
    ensures forall r :: 0 <= r < bs ==>
      Retained(Assignment(g, k, n, iters), bs)[r] == Assignment(g, k, n, iters)[history + r]
    ensures forall r :: 0 <= r < bs ==> Sum(Retained(Assignment(g, k, n, iters), bs)[r]) == 1.0
  {
    AssignmentSpec(g, k, n, iters);
    RetainedCurrent(Assignment(g, k, n, iters), history, bs);
  }

  /** `distributed_sinkhorn(q, iters)[-bs:]` on the exponentiated, transposed scores `q`. */
  method AssignCurrent(q: array2<Entry>, iters: nat, bs: nat) returns (targets: seq<seq<real>>)
    requires Exponentiated(Cells(q))
    modifies q
    ensures targets == Retained(Assignment(old(Cells(q)), q.Length0, q.Length1, iters), bs)
  {
    var p := DistributedSinkhorn(q, iters);
    targets := Retained(Cells(p), bs);
  }
}
