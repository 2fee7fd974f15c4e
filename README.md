# UOTA assignment and queue core, in Dafny

UOTA trains an image encoder without labels. For each step it:

- scores every crop embedding against a set of prototypes;
- turns the scores of the "assign" crops into balanced soft cluster assignments with the Sinkhorn-Knopp algorithm;
- trains every other crop to predict those assignments.

From a configured epoch on, per-sample weights (the "unsupervised outlier arbitration") enter that loss. A FIFO queue of past embeddings per assign crop can widen the Sinkhorn problem beyond the current batch.

This project models that machinery of `main_uota.py`, as follows.

- **`InfinityGuard`** (`guard.dfy`) models `shoot_infs`. Entries are `Fin(x)`, `PosInf` or `NegInf`. The 1-D and 2-D guards are methods over arrays that first zero every infinite entry, then write the maximum back. Each is proved equal to a specification function. Lemmas give its contract.
- **`Sinkhorn`** (`sinkhorn.dfy`) models `distributed_sinkhorn` over exact reals with one worker, so the reduce is the identity.
  - The method guards its input, divides by the total, runs the row/column rescaling loop, and returns the normalised transpose.
  - It is proved equal to the specification function `Assignment`.
  - Lemmas prove that the total is 1 after the first division, that rows sum to `1/K` after each row step, and that columns sum to `1/N` and the total is 1 after every iteration.
  - They also prove that the output is `N x K`, positive, and that each of its rows sums to 1.
- **`FeatureQueues`** (`queue.dfy`) models the queue. It covers:
  - length truncation (Python `%` written out) and creation;
  - the `FeatureQueue` class, whose `Push` shifts one group in place;
  - the read-then-push block of one group, and the loop over groups of one step;
  - the `use_the_queue` flag over one call of `train()`, proved equal to the specification function `Flags`;
  - lemmas: the FIFO law, monotonicity of the flag, and the moment a fresh queue first reads as warm.
- **`Assignments`** (`assign.dfy`) models `distributed_sinkhorn(q, iters)[-bs:]`, the targets of the current batch.
- **`CropLoss`** (`loss.dfy`) models the crop enumeration `np.delete(np.arange(T), crop_id)` and the averaging of the loss over other crops and assign crops. The per-sample prediction terms are inputs. The per-sample weighting is gated by epoch.
- **`Gates`** (`gates.dfy`) models the global iteration index, the UOTA switch and the prototype-freeze condition.
- **`RealSums`** (`sums.dfy`) and **`Grids`** (`grids.dfy`) are helpers: finite sums of reals, and the contents of an `array2` as rows.

Three behaviours of the code are easy to misread:

- **The flag's lifetime and scope.** `use_the_queue` is a single flag shared by all groups. It is reset to false at the start of every `train()` call, that is, every epoch (`main_uota.py:293`). It therefore does not carry over from one epoch to the next, and once any group sets it, every later group of that step and every later step of the epoch reads its queue. `Flags` starts false, and `TrainQueue` proves its flags equal to `Flags` of the queue as it was when the call began.
- **The warmth test.** The code infers warmth from the last slot being all zero, checked before the push. It does not use an explicit per-queue flag. The model keeps that sentinel test (`Latched`, `ReadAndPush`).
- **What the guard replaces, and with what.**
  - Only infinities are replaced (`torch.isinf`), not every non-finite value.
  - The replacement value is the maximum of the tensor after the infinities were zeroed, which is `max(0, largest finite entry)`. It is not the largest finite entry itself. `IsCeiling` states exactly that.

## Model

| member | source | states |
|---|---|---|
| InfinityGuard.Peak | main_uota.py:425 | `torch.max` of a non-empty vector: an upper bound of every entry that is one of the entries |
| InfinityGuard.InfIndices | main_uota.py:417-418 | `torch.nonzero(torch.isinf(t))`: an index is listed iff its entry is infinite |
| InfinityGuard.InfIndicesIncreasing | main_uota.py:417-418 | the listed positions are strictly increasing, as `torch.nonzero` returns them |
| InfinityGuard.ShootSpec | main_uota.py:415-431 | the result is all finite, has the same length, equals the input when nothing is infinite, and keeps every finite entry; each formerly infinite entry is `max(0, largest finite entry)` |
| InfinityGuard.ShootAllInfinite | main_uota.py:415-431 | an all-infinite vector becomes all zero |
| InfinityGuard.ShootIdempotent | main_uota.py:415-431 | guarding a guarded vector changes nothing |
| InfinityGuard.WriteEntries | main_uota.py:420-430 | writing `v` at the listed indices sets exactly those entries and leaves the others |
| InfinityGuard.ShootInfs | main_uota.py:415-431 | the in-place 1-D guard (zero the infinities, take the max, write it back) leaves the array equal to `Shoot` of its old contents |
| InfinityGuard.Peak2 | main_uota.py:425 | `torch.max` of a non-empty matrix: an upper bound of every cell that is one of the cells |
| InfinityGuard.InfCells | main_uota.py:417-418 | the (row, column) pairs of `torch.nonzero`: a pair is listed iff its cell is infinite |
| InfinityGuard.Shoot2Spec | main_uota.py:415-431 | the 2-D guard keeps the shape, leaves no infinity, returns the input when nothing is infinite, keeps finite cells, and puts `max(0, largest finite cell)` in each infinite one |
| InfinityGuard.WriteCells | main_uota.py:420-430 | writing `v` at the listed cells sets exactly those cells and leaves the others |
| InfinityGuard.ShootInfs2 | main_uota.py:415-431 | the in-place 2-D guard leaves the array equal to `Shoot2` of its old contents |
| Sinkhorn.GuardedPositive | main_uota.py:399 | after the guard, an exponentiated `K x N` matrix (positive or `+inf` entries, one finite) is a positive real matrix with `K, N > 0` |
| Sinkhorn.Normalized | main_uota.py:399-402 | the guarded matrix divided by its total keeps the `K x N` shape |
| Sinkhorn.DividedTotal | main_uota.py:400-402 | dividing a matrix by its nonzero total makes the total 1 |
| Sinkhorn.NormalizedTotal | main_uota.py:399-402 | after the guard and the division the total is 1 and every entry is positive |
| Sinkhorn.RowStepPositive | main_uota.py:406-410 | the row rescaling keeps the shape and every entry positive |
| Sinkhorn.RowStepRowSums | main_uota.py:406-410 | after `Q *= (r / rowsums)` every row sums to `r = 1/K` |
| Sinkhorn.ColStepPositive | main_uota.py:411 | the column rescaling keeps the shape and every entry positive |
| Sinkhorn.ColStepColumnSums | main_uota.py:411 | after `Q *= (c / colsums)` every column sums to `c = 1/N` |
| Sinkhorn.Step | main_uota.py:405-411 | one iteration keeps the `K x N` shape and positivity |
| Sinkhorn.StepColumnSums | main_uota.py:405-411 | after one iteration every column sums to `1/N` |
| Sinkhorn.Iterate | main_uota.py:405-411 | any number of iterations keeps the shape and positivity |
| Sinkhorn.TotalByColumns | main_uota.py:411 | the total of a matrix is the sum of its column sums |
| Sinkhorn.IterateTotal | main_uota.py:405-411 | after at least one iteration every column sums to `1/N` and the total is 1 |
| Sinkhorn.FinalizeSpec | main_uota.py:412 | the final column normalisation and transpose give a positive `N x K` matrix whose rows each sum to 1 |
| Sinkhorn.AssignmentSpec | main_uota.py:397-412 | the whole Sinkhorn output is a positive `N x K` matrix whose rows each sum to 1 |
| Sinkhorn.DivideInPlace | main_uota.py:402 | `Q /= sum_Q` in place divides every cell |
| Sinkhorn.ScaleRowsInPlace | main_uota.py:410 | `Q *= u.unsqueeze(1)` scales row `i` by `u[i]` |
| Sinkhorn.ScaleColsInPlace | main_uota.py:411 | `Q *= v.unsqueeze(0)` scales column `j` by `v[j]` |
| Sinkhorn.OneIteration | main_uota.py:406-411 | one pass of the loop body in place (row sums, `r/u`, the guard, both rescalings) leaves `Step` of the old matrix |
| Sinkhorn.Prepare | main_uota.py:399-402 | guards `Q` in place and yields the matrix divided by its total |
| Sinkhorn.Iterations | main_uota.py:405-411 | the loop leaves `Iterate` of the normalised matrix |
| Sinkhorn.Transposed | main_uota.py:412 | returns a new `N x K` array equal to the final normalisation and transpose |
| Sinkhorn.DistributedSinkhorn | main_uota.py:397-412 | the whole procedure leaves the guarded input in `Q` and returns `Assignment` of the input |
| FeatureQueues.PyMod | main_uota.py:230 | Python `%`: the remainder has the divisor's sign and is below it in size, and `a == b * (a // b) + a % b` |
| FeatureQueues.TruncationSpec | main_uota.py:230 | the truncated length is a multiple of `batch_size * world_size`, at most the original, more than the original minus one multiple, the largest such multiple, idempotent, and non-negative for a non-negative length |
| FeatureQueues.TruncationExample | main_uota.py:230 | a length of 10 with batch 4 on one worker becomes 8 |
| FeatureQueues.WorkerLengthWholeBatches | main_uota.py:230-249 | the per-worker length `queue_length // world_size` of a positive truncated length is a positive multiple of the batch size |
| FeatureQueues.FeatureQueue.constructor | main_uota.py:245-249 | `torch.zeros(groups, length, feat_dim)`: every slot of every group is the zero vector |
| FeatureQueues.StartQueue | main_uota.py:244-249 | a fresh zero queue of `queue_length // world_size` slots is created iff the length is positive, the queue epoch has come and there is no queue; otherwise the queue is kept |
| FeatureQueues.PushedSpec | main_uota.py:331-332 | a push keeps the length, puts the batch in slots `[0, bs)`, and moves old slot `j` to `j + bs` |
| FeatureQueues.FeatureQueue.Push | main_uota.py:331-332 | the in-place push leaves group `g` equal to `Pushed` of its old slots and leaves every other group untouched |
| FeatureQueues.PushAllSpec | main_uota.py:331-332 | FIFO law: after `n` pushes of `bs` rows (`n * bs` at most the length), the queue reads the batches most recent first, then the oldest surviving original slots |
| FeatureQueues.NewestFirstLength | main_uota.py:331-332 | `n` batches of `bs` rows concatenate to `n * bs` rows |
| FeatureQueues.NewestFirstLast | main_uota.py:331-332 | the last pushed-order row of the concatenation is the last row of the first batch |
| FeatureQueues.WarmUp | main_uota.py:324-332 | from a zero queue, the last slot stays zero while fewer than `length` rows have been pushed, and holds the first batch's last row once exactly `length` have been |
| FeatureQueues.LatchedStep | main_uota.py:324-325 | looking at one more group sets the flag iff it was set or that group's last slot is not all zero |
| FeatureQueues.LatchedMonotone | main_uota.py:324-325 | a set flag stays set as more groups are looked at |
| FeatureQueues.ReadAndPush | main_uota.py:321-332 | the block of one group: without a queue, the crop's scores and the flag pass through; with one, the flag becomes set iff it was set or the old last slot is nonzero; the queued scores come first iff it is set; the crop's embeddings are pushed; other groups are untouched |
| FeatureQueues.QueueStage | main_uota.py:318-332 | over all groups of one step: group `i` reads its old slots iff the flag was set or some group up to `i` had a nonzero last slot; every group has its crop pushed; the final flag is set iff it was set or any group was warm |
| FeatureQueues.TrainQueue | main_uota.py:293-332 | over one `train()` call: the flags after each step are `Flags` of the starting queue (all false without a queue), and the queue ends as each group's crops pushed step by step |
| FeatureQueues.FlagsMonotone | main_uota.py:293-325 | once on during a call, the flag stays on for the rest of the call |
| FeatureQueues.FlagsPrefix | main_uota.py:293-325 | the flags of the first `m` steps do not depend on later steps |
| FeatureQueues.ColdWhileFilling | main_uota.py:244-332 | with a freshly created queue and a fixed batch size, the flag is off at every step that begins before the queue has been filled once |
| FeatureQueues.WarmWhenFull | main_uota.py:244-332 | with a freshly created queue, the step that begins exactly when the queue is full sees the first step's rows in the last slots and sets the flag when one of them is nonzero |
| Assignments.RetainedCurrent | main_uota.py:340 | `p[-bs:]` after `history` rows keeps exactly the `bs` current rows, in order |
| Assignments.RetainedAssignment | main_uota.py:326-340 | the kept Sinkhorn targets are `bs` positive rows of `K` entries summing to 1, row `r` being the assignment of current sample `r` |
| Assignments.AssignCurrent | main_uota.py:340 | `distributed_sinkhorn(q, iters)[-bs:]` equals `Retained` of `Assignment` |
| CropLoss.OtherCropsSpec | main_uota.py:344 | `np.delete(np.arange(T), crop)` fails iff `crop >= T`; otherwise it gives `T - 1` strictly increasing indices below `T`, without `crop`, containing every other index |
| CropLoss.SubLoss | main_uota.py:343-351 | `subloss -= term` over the other crops gives minus their sum |
| CropLoss.ComputeLoss | main_uota.py:318-353 | the loop over assign crops and other crops gives `StepLoss`: no finite loss on an out-of-range crop, a single crop or no assign crop, else the mean over assign crops of minus the other crops' terms divided by `T - 1` |
| CropLoss.CropLossBounds | main_uota.py:344-352 | one assign crop's loss lies between `-hi` and `-lo` when every term does between `lo` and `hi` |
| CropLoss.LossBounds | main_uota.py:318-353 | the step loss is an average: between `-hi` and `-lo` when every term lies between `lo` and `hi` |
| CropLoss.OwnCropIgnored | main_uota.py:344 | the terms of an assign crop against itself never affect the loss |
| CropLoss.TermMeanWeights | main_uota.py:346-351 | once UOTA is active, weight-zero samples do not affect the mean; before it is active, and whenever all weights are one, the mean is the plain mean of the terms |
| Gates.IterationIndexOrder | main_uota.py:301 | `epoch * len + it` orders steps by (epoch, step), is injective, and recovers the epoch and step by `/` and `%` |
| Gates.UotaActiveSpec | main_uota.py:346 | `epoch + 1 > epoch_uota_starts` holds iff `epoch >= epoch_uota_starts`; it first holds in the epoch that rebuilds the learning-rate schedule and then stays on |
| Gates.FrozenPrefix | main_uota.py:363-366 | the steps whose prototype gradients are dropped form an initial segment of training, empty when the freeze count is not positive |

## Left out

- `torch.exp`, the division by `epsilon`, the stability shift by the global maximum, `softmax` and `log`. These are transcendental floating-point operations. Sinkhorn takes the exponentiated matrix as input. The loss takes each `(torch.sum(q * log p, dim=1) * w).mean()` term as an input, and `TermMean` models only its averaging and weighting.
- `dist.all_reduce` and multi-worker lockstep. This is concurrency. The model has one worker, so the reduce is the identity and `c = 1/N`. The per-worker queue length `queue_length // world_size` is kept.
- Floating point, `.float()` and NaN. All arithmetic is over exact reals. `torch.isinf` does not see NaN, and no NaN can arise in the model.
- Sinkhorn.DistributedSinkhorn: requires an exponentiated input (every entry positive or `+inf`, at least one finite). Under that requirement, the zero row sums that `RowFactors` guards are unreachable, and so are the NaN results of an all-infinite input or a zero column sum.
- Sinkhorn.DistributedSinkhorn: the source rescales the guarded tensor itself. The model rescales a real-valued copy of it, and the caller never reads that tensor again.
- Prototype normalisation (`main_uota.py:306-309`), the backward pass, the optimizer step and the clearing of prototype gradients. These are library numerics. Only the freeze condition is modelled.
- The learning-rate schedules, logging, timing, `AverageMeter`, and checkpoint and queue persistence. These are floating point and I/O. A queue restored from disk enters `StartQueue` as a non-null queue.
- CropLoss.ComputeLoss: `None` stands for the step having no finite loss. That covers numpy's index error, the NaN of `0 / 0` with a single crop, and Python's `ZeroDivisionError` with no assign crop. Their different failure modes are not told apart.
- Crop indices are naturals. Python's negative indices in `crops_for_assign` are not modelled.
- FeatureQueues.FeatureQueue.Push: requires `0 < bs <= length`. An empty batch, or a batch larger than the queue, makes the source's slice assignment fail on a shape mismatch.
- FeatureQueues.TrainQueue: returns the flags and the final queue. The scores handed to Sinkhorn at each step are stated per step by `QueueStage`.
