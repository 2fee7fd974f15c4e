/**
 * The feature queue of main_uota.py: its length is truncated to a multiple of
 * `batch_size * world_size` (line 230), it is created all zero once the queue
 * epoch is reached (lines 244-249), and in every training step each
 * assignment group reads it (if it looks warm) and then pushes the current
 * batch's embeddings at its front (lines 322-332).
 */
module FeatureQueues {
  import opened RealSums
  import opened IntArith

  /** One embedding or one row of scores: a vector of reals. */
  type Row = seq<real>

  predicate AllZero(r: Row)
  {
    forall d :: 0 <= d < |r| ==> r[d] == 0.0
  }

  function Zeros(dim: nat): Row
  {
    seq(dim, d => 0.0)
  }

  // ------------------------------------------------------------- length (main_uota.py:230)

  /** Python's `a // b`: the quotient rounded towards minus infinity. */
  function PyDiv(a: int, b: int): int
    requires b != 0
  {
    if b > 0 || a % b == 0 then a / b else a / b - 1
  }

  /** Python's `a % b`: the remainder has the sign of the divisor. */
  function PyMod(a: int, b: int): (r: int)
    requires b != 0
    ensures b > 0 ==> 0 <= r < b
    ensures b < 0 ==> b < r <= 0
    ensures a == b * PyDiv(a, b) + r
  {
    if b > 0 || a % b == 0 then a % b else a % b + b
  }

  /** `queue_length -= queue_length % (batch_size * world_size)`. */
  function TruncatedLength(len: int, b: int): int
    requires b != 0
  {
    len - PyMod(len, b)
  }

  /** `b * q`, named so that statements about all multiples of `b` have a trigger. */
  function Multiple(b: int, q: int): int
  {
    b * q
  }

  /**
   * For a positive `b = batch_size * world_size`, the truncated length is a
   * multiple of `b`, is the largest multiple of `b` not above the configured
   * length, and truncating it again changes nothing.
   */
  lemma TruncationSpec(len: int, b: int)
    requires b > 0
    ensures TruncatedLength(len, b) == Multiple(b, len / b)
    ensures TruncatedLength(len, b) <= len < TruncatedLength(len, b) + b
    ensures forall q :: Multiple(b, q) <= len ==> Multiple(b, q) <= TruncatedLength(len, b)
    ensures TruncatedLength(TruncatedLength(len, b), b) == TruncatedLength(len, b)
    ensures len >= 0 ==> TruncatedLength(len, b) >= 0
  {
    var p := len / b;
    var t := TruncatedLength(len, b);
    assert t == b * p;
    forall q | Multiple(b, q) <= len
      ensures Multiple(b, q) <= t
    {
      if q > p {
        MultiplyOrder(p + 1, q, b);
      } else {
        MultiplyOrder(q, p, b);
      }
    }
    DivisionUnique(b * p, b, p, 0);
    if len >= 0 {
      MultiplyOrder(0, p, b);
    }
  }

  /** A queue length of 10 with a batch of 4 on one worker becomes 8. */
  lemma TruncationExample()
    ensures TruncatedLength(10, 4) == 8
  {
  }

  // ------------------------------------------------------------- creation (main_uota.py:244-249)

  /** `args.queue_length > 0 and epoch >= args.epoch_queue_starts and queue is None`. */
  predicate StartsQueue(queueLength: int, epoch: int, epochQueueStarts: int, queueIsNone: bool)
  {
    queueLength > 0 && epoch >= epochQueueStarts && queueIsNone
  }

  /**
   * On every worker the queue holds a whole number of batches: the truncated
   * length divided by the world size is a positive multiple of the batch size.
   */
  lemma WorkerLengthWholeBatches(len: int, batchSize: nat, worldSize: nat)
    requires batchSize > 0 && worldSize > 0
    requires TruncatedLength(len, batchSize * worldSize) > 0
    ensures TruncatedLength(len, batchSize * worldSize) / worldSize
         == Multiple(batchSize, len / (batchSize * worldSize))
    ensures TruncatedLength(len, batchSize * worldSize) / worldSize >= batchSize
  {
    var b := batchSize * worldSize;
    TruncationSpec(len, b);
    var p := len / b;
    assert p > 0 by {
      if p <= 0 {
        MultiplyOrder(p, 0, b);
      }
    }
    assert b * p == worldSize * (batchSize * p);
    DivisionUnique(worldSize * (batchSize * p), worldSize, batchSize * p, 0);
    MultiplyOrder(1, p, batchSize);
  }

  // ------------------------------------------------------------- the FIFO

  /** The slots of one group after a push: the batch at the front, the oldest rows dropped. */
  function Pushed(slots: seq<Row>, batch: seq<Row>): seq<Row>
    requires |batch| <= |slots|
  {
    batch + slots[..|slots| - |batch|]
  }

  /** A push keeps the length, puts the batch first and shifts every kept row down by `|batch|`. */
  lemma PushedSpec(slots: seq<Row>, batch: seq<Row>)
    requires |batch| <= |slots|
    ensures |Pushed(slots, batch)| == |slots|
    ensures forall j :: 0 <= j < |batch| ==> Pushed(slots, batch)[j] == batch[j]
    ensures forall j :: 0 <= j < |slots| - |batch| ==> Pushed(slots, batch)[j + |batch|] == slots[j]
  {
  }

  /** Pushing `batches[0]`, then `batches[1]`, and so on. */
  function PushAll(slots: seq<Row>, batches: seq<seq<Row>>): (r: seq<Row>)
    requires forall t :: 0 <= t < |batches| ==> |batches[t]| <= |slots|
    ensures |r| == |slots|
  {
    if |batches| == 0 then slots
    else Pushed(PushAll(slots, batches[..|batches| - 1]), batches[|batches| - 1])
  }

  /** The batches, newest first, concatenated. */
  function NewestFirst(batches: seq<seq<Row>>): seq<Row>
  {
    if |batches| == 0 then [] else batches[|batches| - 1] + NewestFirst(batches[..|batches| - 1])
  }

  lemma {:induction false} NewestFirstLength(batches: seq<seq<Row>>, bs: nat)
    requires forall t :: 0 <= t < |batches| ==> |batches[t]| == bs
    ensures |NewestFirst(batches)| == |batches| * bs
  {
    if |batches| > 0 {
      NewestFirstLength(batches[..|batches| - 1], bs);
    }
  }

  /**
   * The FIFO law: after pushing `n` batches of `bs` rows into a queue with room
   * for them, the front `n * bs` slots hold the batches most recent first and
   * the rest hold the oldest surviving rows of the original content.
   */
  lemma {:induction false} PushAllSpec(slots: seq<Row>, batches: seq<seq<Row>>, bs: nat)
    requires forall t :: 0 <= t < |batches| ==> |batches[t]| == bs
    requires bs <= |slots| && |batches| * bs <= |slots|
    ensures PushAll(slots, batches) == NewestFirst(batches) + slots[..|slots| - |batches| * bs]
  {
    NewestFirstLength(batches, bs);
    if |batches| > 0 {
      var n := |batches| - 1;
      var front, last := batches[..n], batches[n];
      assert |batches| * bs == n * bs + bs;
      NewestFirstLength(front, bs);
      PushAllSpec(slots, front, bs);
      var before := PushAll(slots, front);
      var rest := slots[..|slots| - |batches| * bs];
      assert before[..|slots| - bs] == NewestFirst(front) + rest;
      assert PushAll(slots, batches) == last + before[..|slots| - bs];
      assert NewestFirst(batches) == last + NewestFirst(front);
    }
  }

  /**
   * A queue created all zero first reads as warm when the first batch pushed
   * reaches the last slot: before `n * bs == |slots|` rows have been pushed the
   * last slot is still zero, and at that point it holds the first batch's last row.
   */
  lemma WarmUp(dim: nat, len: nat, batches: seq<seq<Row>>, bs: nat)
    requires 0 < bs <= len && forall t :: 0 <= t < |batches| ==> |batches[t]| == bs
    requires |batches| * bs <= len
    ensures |batches| * bs < len ==> PushAll(seq(len, j => Zeros(dim)), batches)[len - 1] == Zeros(dim)
    ensures 0 < |batches| && |batches| * bs == len ==>
      PushAll(seq(len, j => Zeros(dim)), batches)[len - 1] == batches[0][bs - 1]
  {
    var empty := seq(len, j => Zeros(dim));
    if |batches| > 0 {
      PushAllSpec(empty, batches, bs);
      NewestFirstLength(batches, bs);
      if |batches| * bs == len {
        NewestFirstLast(batches, bs);
      }
    }
  }

  /** The last row of the newest-first concatenation is the last row of the first batch. */
  lemma {:induction false} NewestFirstLast(batches: seq<seq<Row>>, bs: nat)
    requires bs > 0 && |batches| > 0 && forall t :: 0 <= t < |batches| ==> |batches[t]| == bs
    ensures |NewestFirst(batches)| == |batches| * bs
    ensures NewestFirst(batches)[|batches| * bs - 1] == batches[0][bs - 1]
  {
    NewestFirstLength(batches, bs);
    if |batches| > 1 {
      NewestFirstLast(batches[..|batches| - 1], bs);
    }
  }

  // ------------------------------------------------------------- similarity

  function Dot(a: Row, b: Row): real
    requires |a| == |b|
  {
    Sum(seq(|a|, d requires 0 <= d < |a| => a[d] * b[d]))
  }

  /** `torch.mm(rows, prototypes.t())`: one score per row and prototype. */
  function Scores(rows: seq<Row>, prototypes: seq<Row>, dim: nat): seq<Row>
    requires forall n :: 0 <= n < |rows| ==> |rows[n]| == dim
    requires forall c :: 0 <= c < |prototypes| ==> |prototypes[c]| == dim
  {
    seq(|rows|, n requires 0 <= n < |rows| =>
      seq(|prototypes|, c requires 0 <= c < |prototypes| => Dot(rows[n], prototypes[c])))
  }

  /** `rows[bs * c : bs * (c + 1)]`: the rows of crop `c`. */
  function CropRows(rows: seq<Row>, bs: nat, c: nat): (r: seq<Row>)
    requires bs * (c + 1) <= |rows|
    ensures |r| == bs
  {
    rows[bs * c .. bs * (c + 1)]
  }

  // ------------------------------------------------------------- the queue object

  class FeatureQueue {
    /** `len(args.crops_for_assign)`. */
    const groups: nat
    /** `args.queue_length // args.world_size`. */
    const length: nat
    /** `args.feat_dim`. */
    const dim: nat
    /** The tensor `queue`, one row of slots per group; each slot holds one embedding. */
    const data: array2<Row>

    ghost predicate Valid()
      reads this, data
    {
      && data.Length0 == groups && data.Length1 == length
      && forall g, j :: 0 <= g < groups && 0 <= j < length ==> |data[g, j]| == dim
    }

    /** `queue[g]`: the slots of group `g`, front first. */
    function Slots(g: nat): (s: seq<Row>)
      reads this, data
      requires Valid() && g < groups
      ensures |s| == length && forall j :: 0 <= j < length ==> |s[j]| == dim
    {
      seq(length, j requires 0 <= j < length reads this, data => data[g, j])
    }

    /** The whole queue, group by group. */
    function Contents(): (c: seq<seq<Row>>)
      reads this, data
      requires Valid()
      ensures |c| == groups && forall g :: 0 <= g < groups ==> c[g] == Slots(g)
    {
      seq(groups, g requires 0 <= g < groups && Valid() reads this, data => Slots(g))
    }

    /** `queue[g, -1, :]` for every group `g`: the slot that is overwritten last. */
    function LastRows(): (r: seq<Row>)
      reads this, data
      requires Valid() && length > 0
      ensures |r| == groups && forall g :: 0 <= g < groups ==> r[g] == Slots(g)[length - 1]
    {
      seq(groups, g requires 0 <= g < groups reads this, data => data[g, length - 1])
    }

    /** `torch.zeros(groups, length, dim)`. */
    constructor (groups: nat, length: nat, dim: nat)
      ensures Valid() && fresh(data)
      ensures this.groups == groups && this.length == length && this.dim == dim
      ensures forall g :: 0 <= g < groups ==> Slots(g) == seq(length, j => Zeros(dim))
    {
      this.groups, this.length, this.dim := groups, length, dim;
      data := new Row[groups, length]((g, j) => Zeros(dim));
    }

    /**
     * `queue[i, bs:] = queue[i, :-bs].clone(); queue[i, :bs] = batch`:
     * group `g` drops its oldest `bs` rows and takes the batch at its front;
     * every other group is untouched.
     */
    method Push(g: nat, batch: seq<Row>)
      requires Valid() && g < groups
      requires 0 < |batch| <= length
      requires forall t :: 0 <= t < |batch| ==> |batch[t]| == dim
      modifies data
      ensures Valid()
      ensures Slots(g) == Pushed(old(Slots(g)), batch)
      ensures forall h :: 0 <= h < groups && h != g ==> Slots(h) == old(Slots(h))
    {
      var bs := |batch|;
      ghost var before := Slots(g);
      forall j | bs <= j < length {
        data[g, j] := data[g, j - bs];
      }
      forall j | 0 <= j < bs {
        data[g, j] := batch[j];
      }
      assert Slots(g) == Pushed(before, batch);
      forall h | 0 <= h < groups && h != g
        ensures Slots(h) == old(Slots(h))
      {
        assert forall j :: 0 <= j < length ==> Slots(h)[j] == old(Slots(h))[j];
      }
    }
  }

  // ------------------------------------------------------------- use_the_queue (main_uota.py:293, 321-332)

  /**
   * The value of `use_the_queue` after the groups before `i` have been looked
   * at, starting from `warm`, when `lasts[h]` is the last slot of group `h`:
   * the flag switches on at the first group whose last slot is not all zero
   * and never switches off.
   */
  predicate Latched(warm: bool, lasts: seq<Row>, i: nat)
  {
    warm || exists h :: 0 <= h < i && h < |lasts| && !AllZero(lasts[h])
  }

  /** The flag is monotone in the groups looked at, and a set flag stays set. */
  lemma LatchedMonotone(warm: bool, lasts: seq<Row>, i: nat, j: nat)
    requires i <= j
    ensures warm ==> Latched(warm, lasts, i)
    ensures Latched(warm, lasts, i) ==> Latched(warm, lasts, j)
    ensures Latched(false, lasts, i) ==> Latched(warm, lasts, i)
  {
  }

  /** Looking at one more group sets the flag iff it was set or that group's last slot is not all zero. */
  lemma LatchedStep(warm: bool, lasts: seq<Row>, i: nat)
    requires i < |lasts|
    ensures Latched(warm, lasts, i + 1) == (Latched(warm, lasts, i) || !AllZero(lasts[i]))
  {
    if !Latched(warm, lasts, i) && !AllZero(lasts[i]) {
      assert 0 <= i < i + 1 && i < |lasts| && !AllZero(lasts[i]);
    }
  }

  /**
   * Whether a queue of `length` slots of dimension `dim` can take `bs` rows
   * of crop `cropId` of `embedding` and be scored against `prototypes`.
   */
  predicate Sized(length: nat, dim: nat, bs: nat, cropId: nat, embedding: seq<Row>, prototypes: seq<Row>)
  {
    && 0 < bs <= length
    && bs * (cropId + 1) <= |embedding|
    && (forall n :: 0 <= n < |embedding| ==> |embedding[n]| == dim)
    && (forall c :: 0 <= c < |prototypes| ==> |prototypes[c]| == dim)
  }

  ghost predicate Fits(queue: FeatureQueue, g: nat, bs: nat, cropId: nat, embedding: seq<Row>, prototypes: seq<Row>)
    reads queue, queue.data
  {
    queue.Valid() && g < queue.groups && Sized(queue.length, queue.dim, bs, cropId, embedding, prototypes)
  }

  /**
   * The queue block of one assignment group `g` (crop `cropId`): the scores
   * of the current crop, preceded by the scores of the queued embeddings once
   * the flag is on; then the crop's embeddings are pushed into group `g`.
   * Without a queue the flag and the scores pass through.
   */
  method ReadAndPush(queue: FeatureQueue?, g: nat, warm: bool, cropId: nat, bs: nat,
                     embedding: seq<Row>, output: seq<Row>, prototypes: seq<Row>)
    returns (used: bool, out: seq<Row>)
    requires bs * (cropId + 1) <= |output|
    requires queue != null ==> Fits(queue, g, bs, cropId, embedding, prototypes)
    modifies if queue != null then {queue.data} else {}
    ensures queue == null ==> used == warm && out == CropRows(output, bs, cropId)
    ensures queue != null ==> queue.Valid()
    ensures queue != null ==> used == (warm || !AllZero(old(queue.data[g, queue.length - 1])))
    ensures queue != null ==>
      out == (if used then Scores(old(queue.Slots(g)), prototypes, queue.dim) else []) + CropRows(output, bs, cropId)
    ensures queue != null ==> queue.Slots(g) == Pushed(old(queue.Slots(g)), CropRows(embedding, bs, cropId))
    ensures queue != null ==>
      forall h :: 0 <= h < queue.groups && h != g ==> queue.Slots(h) == old(queue.Slots(h))
  {
    used, out := warm, CropRows(output, bs, cropId);
    if queue != null {
      if used || !AllZero(queue.data[g, queue.length - 1]) {
        used := true;
        out := Scores(queue.Slots(g), prototypes, queue.dim) + out;
      }
      queue.Push(g, CropRows(embedding, bs, cropId));
    }
  }

  /** The scores that group `i` hands to Sinkhorn when the flag reads `used`. */
  function GroupInput(used: bool, slots: seq<Row>, prototypes: seq<Row>, dim: nat, current: seq<Row>): seq<Row>
    requires forall n :: 0 <= n < |slots| ==> |slots[n]| == dim
    requires forall c :: 0 <= c < |prototypes| ==> |prototypes[c]| == dim
  {
    (if used then Scores(slots, prototypes, dim) else []) + current
  }

  /** Whether every group of `queue` fits this step's crops. */
  ghost predicate StepFits(queue: FeatureQueue, crops: seq<nat>, bs: nat, embedding: seq<Row>, prototypes: seq<Row>)
    reads queue, queue.data
  {
    && queue.Valid() && queue.length > 0 && queue.groups == |crops|
    && forall i :: 0 <= i < |crops| ==> Sized(queue.length, queue.dim, bs, crops[i], embedding, prototypes)
  }

  /**
   * The queue part of one training step, for every group in
   * `crops_for_assign` order: the flag ends up set iff it was set or some
   * group's last slot was not all zero before the step; group `i` reads its
   * old slots iff the flag was set by the time it was reached; every group
   * has the crop it scores pushed.
   */
  method QueueStage(queue: FeatureQueue?, warm: bool, crops: seq<nat>, bs: nat,
                    embedding: seq<Row>, output: seq<Row>, prototypes: seq<Row>)
    returns (used: bool, outs: seq<seq<Row>>)
    requires forall i :: 0 <= i < |crops| ==> bs * (crops[i] + 1) <= |output|
    requires queue != null ==> StepFits(queue, crops, bs, embedding, prototypes)
    modifies if queue != null then {queue.data} else {}
    ensures |outs| == |crops|
    ensures queue == null ==> used == warm
    ensures queue == null ==> forall i :: 0 <= i < |crops| ==> outs[i] == CropRows(output, bs, crops[i])
    ensures queue != null ==> queue.Valid() && queue.groups == |crops|
    ensures queue != null ==> used == Latched(warm, old(queue.LastRows()), |crops|)
    ensures queue != null ==> forall i :: 0 <= i < |crops| ==>
      outs[i] == GroupInput(Latched(warm, old(queue.LastRows()), i + 1), old(queue.Slots(i)), prototypes,
                            queue.dim, CropRows(output, bs, crops[i]))
    ensures queue != null ==> forall i :: 0 <= i < |crops| ==>
      queue.Slots(i) == Pushed(old(queue.Slots(i)), CropRows(embedding, bs, crops[i]))
  {
    used, outs := warm, [];
    if queue == null {
      for t := 0 to |crops|
        invariant used == warm && |outs| == t
        invariant forall i :: 0 <= i < t ==> outs[i] == CropRows(output, bs, crops[i])
      {
        var out;
        used, out := ReadAndPush(queue, t, used, crops[t], bs, embedding, output, prototypes);
        outs := outs + [out];
      }
      return;
    }
    ghost var before := queue.Contents();
    ghost var lasts := queue.LastRows();
    ghost var dim := queue.dim;
    assert 0 < |crops| ==> forall c :: 0 <= c < |prototypes| ==> |prototypes[c]| == dim by {
      if 0 < |crops| {
        assert Sized(queue.length, dim, bs, crops[0], embedding, prototypes);
      }
    }
    ghost var expected := seq(|crops|, i requires 0 <= i < |crops| =>
      GroupInput(Latched(warm, lasts, i + 1), before[i], prototypes, dim, CropRows(output, bs, crops[i])));
    for t := 0 to |crops|
      invariant queue.Valid() && queue.groups == |crops| && StepFits(queue, crops, bs, embedding, prototypes)
      invariant used == Latched(warm, lasts, t)
      invariant outs == expected[..t]
      invariant forall i :: 0 <= i < t ==> queue.Slots(i) == Pushed(before[i], CropRows(embedding, bs, crops[i]))
      invariant forall h :: t <= h < |crops| ==> queue.Slots(h) == before[h]
      modifies queue.data
    {
      assert queue.data[t, queue.length - 1] == lasts[t];
      assert queue.Slots(t) == before[t];
      LatchedStep(warm, lasts, t);
      assert Fits(queue, t, bs, crops[t], embedding, prototypes);
      var out;
      used, out := ReadAndPush(queue, t, used, crops[t], bs, embedding, output, prototypes);
      assert out == expected[t];
      assert expected[..t + 1] == expected[..t] + [out];
      outs := outs + [out];
    }
    assert outs == expected;
  }

  // ------------------------------------------------------------- one call of train() (main_uota.py:293-332)

  /** What one training step contributes to the queue: the batch size, the embeddings, the scores and the prototypes. */
  datatype StepData = StepData(bs: nat, embedding: seq<Row>, output: seq<Row>, prototypes: seq<Row>)

  /** Every step scores every assigned crop. */
  predicate OutputsFit(crops: seq<nat>, steps: seq<StepData>)
  {
    forall t, i :: 0 <= t < |steps| && 0 <= i < |crops| ==> steps[t].bs * (crops[i] + 1) <= |steps[t].output|
  }

  /** Every step fits a queue of `length` slots of dimension `dim` in every group. */
  predicate StepsFit(length: nat, dim: nat, crops: seq<nat>, steps: seq<StepData>)
  {
    forall t, i :: 0 <= t < |steps| && 0 <= i < |crops| ==>
      Sized(length, dim, steps[t].bs, crops[i], steps[t].embedding, steps[t].prototypes)
  }

  /** The crop `c` embeddings of every step, in order. */
  function CropBatches(steps: seq<StepData>, c: nat): (r: seq<seq<Row>>)
    requires forall t :: 0 <= t < |steps| ==> steps[t].bs * (c + 1) <= |steps[t].embedding|
    ensures |r| == |steps| && forall t :: 0 <= t < |steps| ==> r[t] == CropRows(steps[t].embedding, steps[t].bs, c)
  {
    seq(|steps|, t requires 0 <= t < |steps| => CropRows(steps[t].embedding, steps[t].bs, c))
  }

  /** Every group of `start` holds `length` slots. */
  predicate Uniform(start: seq<seq<Row>>, length: nat)
  {
    forall g :: 0 <= g < |start| ==> |start[g]| == length
  }

  /** The queue after the first `t` steps, when it held `start` before them. */
  function QueueAfter(start: seq<seq<Row>>, length: nat, dim: nat, crops: seq<nat>, steps: seq<StepData>, t: nat)
    : (q: seq<seq<Row>>)
    requires |start| == |crops| && Uniform(start, length) && StepsFit(length, dim, crops, steps) && t <= |steps|
    ensures |q| == |start| && Uniform(q, length)
  {
    seq(|start|, g requires 0 <= g < |start| => PushAll(start[g], CropBatches(steps[..t], crops[g])))
  }

  /** `queue[g, -1, :]` of every group `g`. */
  function LastSlots(q: seq<seq<Row>>, length: nat): (r: seq<Row>)
    requires length > 0 && Uniform(q, length)
    ensures |r| == |q|
  {
    seq(|q|, g requires 0 <= g < |q| => q[g][length - 1])
  }

  /**
   * `use_the_queue` at the end of each of the first `n` steps of one call of
   * `train()`: off when the call begins, and on from the first step at whose
   * start some group's last slot is not all zero.
   */
  function Flags(start: seq<seq<Row>>, length: nat, dim: nat, crops: seq<nat>, steps: seq<StepData>, n: nat)
    : (f: seq<bool>)
    requires |start| == |crops| && length > 0 && Uniform(start, length) && StepsFit(length, dim, crops, steps)
    requires n <= |steps|
    ensures |f| == n
  {
    if n == 0 then []
    else
      var prev := Flags(start, length, dim, crops, steps, n - 1);
      prev + [(n >= 2 && prev[n - 2])
              || Latched(false, LastSlots(QueueAfter(start, length, dim, crops, steps, n - 1), length), |crops|)]
  }

  /** One more step pushes each group's crop of that step. */
  lemma QueueAfterStep(start: seq<seq<Row>>, length: nat, dim: nat, crops: seq<nat>, steps: seq<StepData>, t: nat)
    requires |start| == |crops| && Uniform(start, length) && StepsFit(length, dim, crops, steps) && t < |steps|
    ensures forall g :: 0 <= g < |start| ==>
      QueueAfter(start, length, dim, crops, steps, t + 1)[g]
        == Pushed(QueueAfter(start, length, dim, crops, steps, t)[g], CropRows(steps[t].embedding, steps[t].bs, crops[g]))
  {
    forall g | 0 <= g < |start|
      ensures QueueAfter(start, length, dim, crops, steps, t + 1)[g]
        == Pushed(QueueAfter(start, length, dim, crops, steps, t)[g], CropRows(steps[t].embedding, steps[t].bs, crops[g]))
    {
      var longer := CropBatches(steps[..t + 1], crops[g]);
      assert longer[..t] == CropBatches(steps[..t], crops[g]);
    }
  }

  /**
   * The queue side of one call of `train()`: the flag starts off, each step
   * runs the queue stage of every group, and the flags seen at the end of the
   * steps are `Flags` of the queue as it was when the call began.
   */
  method TrainQueue(queue: FeatureQueue?, crops: seq<nat>, steps: seq<StepData>) returns (flags: seq<bool>)
    requires OutputsFit(crops, steps)
    requires queue != null ==>
      queue.Valid() && queue.length > 0 && queue.groups == |crops| && StepsFit(queue.length, queue.dim, crops, steps)
    modifies if queue != null then {queue.data} else {}
    ensures |flags| == |steps|
    ensures queue == null ==> forall t :: 0 <= t < |steps| ==> !flags[t]
    ensures queue != null ==> queue.Valid()
    ensures queue != null ==> flags == Flags(old(queue.Contents()), queue.length, queue.dim, crops, steps, |steps|)
    ensures queue != null ==>
      queue.Contents() == QueueAfter(old(queue.Contents()), queue.length, queue.dim, crops, steps, |steps|)
  {
    var used := false;
    flags := [];
    if queue == null {
      for t := 0 to |steps|
        invariant !used && |flags| == t && forall u :: 0 <= u < t ==> !flags[u]
      {
        var s := steps[t];
        var outs;
        used, outs := QueueStage(queue, used, crops, s.bs, s.embedding, s.output, s.prototypes);
        flags := flags + [used];
      }
      return;
    }
    ghost var start := queue.Contents();
    ghost var length, dim := queue.length, queue.dim;
    for t := 0 to |steps|
      invariant queue.Valid() && queue.length == length && queue.dim == dim && queue.groups == |crops|
      invariant flags == Flags(start, length, dim, crops, steps, t)
      invariant used == (t >= 1 && flags[t - 1])
      invariant queue.Contents() == QueueAfter(start, length, dim, crops, steps, t)
      modifies queue.data
    {
      var s := steps[t];
      ghost var lasts := queue.LastRows();
      assert lasts == LastSlots(QueueAfter(start, length, dim, crops, steps, t), length);
      var outs;
      used, outs := QueueStage(queue, used, crops, s.bs, s.embedding, s.output, s.prototypes);
      flags := flags + [used];
      QueueAfterStep(start, length, dim, crops, steps, t);
      assert forall g :: 0 <= g < |crops| ==> queue.Contents()[g] == QueueAfter(start, length, dim, crops, steps, t + 1)[g];
    }
  }

  /** Once on, the flag stays on for the rest of the call. */
  lemma {:induction false} FlagsMonotone(start: seq<seq<Row>>, length: nat, dim: nat, crops: seq<nat>,
                                         steps: seq<StepData>, n: nat)
    requires |start| == |crops| && length > 0 && Uniform(start, length) && StepsFit(length, dim, crops, steps)
    requires n <= |steps|
    ensures forall t, u :: 0 <= t <= u < n && Flags(start, length, dim, crops, steps, n)[t] ==>
      Flags(start, length, dim, crops, steps, n)[u]
  {
    if n > 0 {
      FlagsMonotone(start, length, dim, crops, steps, n - 1);
    }
  }

  /** The flags of a shorter run are a prefix of the flags of a longer one. */
  lemma {:induction false} FlagsPrefix(start: seq<seq<Row>>, length: nat, dim: nat, crops: seq<nat>,
                                       steps: seq<StepData>, m: nat, n: nat)
    requires |start| == |crops| && length > 0 && Uniform(start, length) && StepsFit(length, dim, crops, steps)
    requires m <= n <= |steps|
    ensures Flags(start, length, dim, crops, steps, n)[..m] == Flags(start, length, dim, crops, steps, m)
  {
    if m < n {
      FlagsPrefix(start, length, dim, crops, steps, m, n - 1);
    }
  }

  /** The content of a queue just created by `torch.zeros`. */
  function ZeroQueue(groups: nat, length: nat, dim: nat): (q: seq<seq<Row>>)
    ensures |q| == groups && Uniform(q, length)
  {
    seq(groups, g => seq(length, j => Zeros(dim)))
  }

  /** Every step has batch size `bs`. */
  predicate UniformBatch(steps: seq<StepData>, bs: nat)
  {
    forall t :: 0 <= t < |steps| ==> steps[t].bs == bs
  }

  /**
   * With a queue just created all zero, the flag stays off at every step that
   * begins before `length` rows have been pushed into each group.
   */
  lemma {:induction false} ColdWhileFilling(length: nat, dim: nat, crops: seq<nat>, steps: seq<StepData>,
                                            bs: nat, n: nat)
    requires length > 0 && StepsFit(length, dim, crops, steps) && UniformBatch(steps, bs) && n <= |steps|
    ensures forall t :: 0 <= t < n && t * bs < length ==>
      !Flags(ZeroQueue(|crops|, length, dim), length, dim, crops, steps, n)[t]
  {
    if n > 0 {
      var zero := ZeroQueue(|crops|, length, dim);
      ColdWhileFilling(length, dim, crops, steps, bs, n - 1);
      var t := n - 1;
      if t * bs < length {
        var lasts := LastSlots(QueueAfter(zero, length, dim, crops, steps, t), length);
        forall g | 0 <= g < |crops|
          ensures AllZero(lasts[g])
        {
          assert Sized(length, dim, steps[t].bs, crops[g], steps[t].embedding, steps[t].prototypes);
          WarmUp(dim, length, CropBatches(steps[..t], crops[g]), bs);
        }
        if t >= 1 {
          MultiplyOrder(t - 1, t, bs);
        }
      }
    }
  }

  /**
   * With a queue just created all zero and a fixed batch size, the step that
   * begins after exactly `length` rows have been pushed finds the first
   * step's rows in the last slots, so the flag is on there if one of them is
   * not all zero.
   */
  lemma WarmWhenFull(length: nat, dim: nat, crops: seq<nat>, steps: seq<StepData>, bs: nat, t: nat, n: nat, g: nat)
    requires length > 0 && StepsFit(length, dim, crops, steps) && UniformBatch(steps, bs)
    requires t < n <= |steps| && t * bs == length && g < |crops|
    requires !AllZero(CropRows(steps[0].embedding, bs, crops[g])[bs - 1])
    ensures Flags(ZeroQueue(|crops|, length, dim), length, dim, crops, steps, n)[t]
  {
    var zero := ZeroQueue(|crops|, length, dim);
    assert Sized(length, dim, steps[0].bs, crops[g], steps[0].embedding, steps[0].prototypes);
    FlagsPrefix(zero, length, dim, crops, steps, t + 1, n);
    var batches := CropBatches(steps[..t], crops[g]);
    WarmUp(dim, length, batches, bs);
    var lasts := LastSlots(QueueAfter(zero, length, dim, crops, steps, t), length);
    assert !AllZero(lasts[g]);
  }

  /**
   * The start of an epoch: when the queue is switched on, the epoch has come
   * and there is no queue yet, a new all-zero queue of `queueLength //
   * worldSize` slots per group is created; otherwise the queue is kept.
   */
  method StartQueue(queue: FeatureQueue?, queueLength: int, worldSize: nat, epoch: int, epochQueueStarts: int,
                    groups: nat, featDim: nat)
    returns (q: FeatureQueue?)
    requires worldSize > 0
    ensures StartsQueue(queueLength, epoch, epochQueueStarts, queue == null) ==>
      q != null && fresh(q) && fresh(q.data) && q.Valid()
      && q.groups == groups && q.length == PyDiv(queueLength, worldSize) && q.dim == featDim
      && q.Contents() == ZeroQueue(groups, q.length, featDim)
    ensures !StartsQueue(queueLength, epoch, epochQueueStarts, queue == null) ==> q == queue
  {
    q := queue;
    if queueLength > 0 && epoch >= epochQueueStarts && queue == null {
      var length := PyDiv(queueLength, worldSize);
      q := new FeatureQueue(groups, length, featDim);
      assert forall g :: 0 <= g < groups ==> q.Contents()[g] == ZeroQueue(groups, length, featDim)[g];
    }
  }
}
