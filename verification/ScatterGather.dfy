/**
 Trajectory-grouped data-parallel batches and the merge of their outputs by row index
 (axrl/data/global_batch_iterator.py, axrl/ray/ray_megatron_worker.py:94-219).
 */
module ScatterGather {
  import opened Basics
  import opened Arithmetic
  import opened Strides

  /** One packed sample; padding rows carry index -1. */
  datatype Row<T> = Row(index: int, trajectoryId: int, trainableTokens: nat, payload: T)

  predicate IsPermutation(perm: seq<nat>, n: nat) {
    && |perm| == n
    && (forall q :: 0 <= q < n ==> perm[q] < n)
    && (forall q, q' :: 0 <= q < q' < n ==> perm[q] != perm[q'])
    && (forall p :: 0 <= p < n ==> p in perm)
  }

  // Grouping by trajectory.

  function MaxOf(xs: seq<int>): (m: int)
    requires xs != []
    ensures m in xs && forall i :: 0 <= i < |xs| ==> xs[i] <= m
  {
    if |xs| == 1 then xs[0] else
      var rest := MaxOf(xs[1..]);
      if xs[0] >= rest then xs[0] else rest
  }

  /** Ids are exactly 0 .. max. */
  predicate ContiguousIds(ids: seq<int>) {
    && (forall i :: 0 <= i < |ids| ==> ids[i] >= 0)
    && (ids != [] ==> forall t :: 0 <= t <= MaxOf(ids) ==> t in ids)
  }

  function NumTrajectories(ids: seq<int>): int {
    if ids == [] then 0 else MaxOf(ids) + 1
  }

  function NumBatches(ids: seq<int>, globalBatchSize: nat): int
    requires globalBatchSize > 0
  {
    (NumTrajectories(ids) + globalBatchSize - 1) / globalBatchSize
  }

  /** Rows below `n` whose trajectory belongs to batch `b`, in order. */
  function RowsOfBatch(ids: seq<int>, globalBatchSize: nat, b: nat, n: nat): (rows: seq<nat>)
    requires globalBatchSize > 0 && n <= |ids|
    ensures forall p :: 0 <= p < |rows| ==> rows[p] < n && ids[rows[p]] / globalBatchSize == b
    ensures forall p, p' :: 0 <= p < p' < |rows| ==> rows[p] < rows[p']
    ensures forall i :: 0 <= i < n && ids[i] / globalBatchSize == b ==> i in rows
  {
    if n == 0 then []
    else
      var rows := RowsOfBatch(ids, globalBatchSize, b, n - 1);
      if ids[n - 1] / globalBatchSize == b then rows + [n - 1] else rows
  }

  lemma BatchInRange(t: int, trajectories: int, globalBatchSize: nat)
    requires 0 <= t < trajectories && globalBatchSize > 0
    ensures 0 <= t / globalBatchSize < (trajectories + globalBatchSize - 1) / globalBatchSize
  {
    FloorBounds(t, globalBatchSize);
    CeilBounds(trajectories, globalBatchSize);
    var n := (trajectories + globalBatchSize - 1) / globalBatchSize;
    if n <= t / globalBatchSize {
      MulLe(n, t / globalBatchSize, globalBatchSize);
    }
  }

  /** No global batch is empty: the first trajectory of each exists. */
  lemma BatchesNonEmpty(ids: seq<int>, globalBatchSize: nat, b: nat)
    requires globalBatchSize > 0 && ContiguousIds(ids) && b < NumBatches(ids, globalBatchSize)
    ensures RowsOfBatch(ids, globalBatchSize, b, |ids|) != []
  {
    var trajectories := NumTrajectories(ids);
    if ids == [] {
      DivModUnique(0, globalBatchSize - 1, globalBatchSize, globalBatchSize - 1);
      assert false;
    }
    CeilBounds(trajectories, globalBatchSize);
    MulLe(b + 1, NumBatches(ids, globalBatchSize), globalBatchSize);
    var t := b * globalBatchSize;
    assert (b + 1) * globalBatchSize == t + globalBatchSize;
    DivModUnique(b, 0, globalBatchSize, t);
    assert t in ids;
    var i :| 0 <= i < |ids| && ids[i] == t;
    assert i in RowsOfBatch(ids, globalBatchSize, b, |ids|);
  }

  lemma BatchOfRow(ids: seq<int>, globalBatchSize: nat, row: nat)
    requires globalBatchSize > 0 && ContiguousIds(ids) && row < |ids|
    ensures 0 <= ids[row] / globalBatchSize < NumBatches(ids, globalBatchSize)
  {
    BatchInRange(ids[row], NumTrajectories(ids), globalBatchSize);
  }

  lemma NoIdsNoBatches(globalBatchSize: nat)
    requires globalBatchSize > 0
    ensures ContiguousIds([]) && NumBatches([], globalBatchSize) == 0
  {
    DivModUnique(0, globalBatchSize - 1, globalBatchSize, globalBatchSize - 1);
  }

  lemma OneRowMore(ids: seq<int>, globalBatchSize: nat, b: nat, row: nat)
    requires globalBatchSize > 0 && row < |ids|
    ensures RowsOfBatch(ids, globalBatchSize, b, 0) == []
    ensures RowsOfBatch(ids, globalBatchSize, b, row + 1)
         == RowsOfBatch(ids, globalBatchSize, b, row) + if ids[row] / globalBatchSize == b then [row] else []
  {
  }

  /** `None` stands for a failed assertion on the trajectory ids. */
  method GroupRowIndicesByGlobalBatch(ids: seq<int>, globalBatchSize: nat) returns (r: Option<seq<seq<nat>>>)
    requires globalBatchSize > 0
    ensures r.Some? <==> ContiguousIds(ids)
    ensures r.Some? ==> |r.value| == NumBatches(ids, globalBatchSize)
    ensures r.Some? ==> forall b :: 0 <= b < |r.value| ==> r.value[b] == RowsOfBatch(ids, globalBatchSize, b, |ids|)
  {
    hide ContiguousIds, NumBatches, RowsOfBatch;
    if ids == [] {
      NoIdsNoBatches(globalBatchSize);
      return Some([]);
    }
    if !ContiguousIds(ids) {
      return None;
    }
    BatchOfRow(ids, globalBatchSize, 0);
    var numBatches := NumBatches(ids, globalBatchSize);
    var grouped := seq(numBatches, _ => []);
    forall b | 0 <= b < numBatches
      ensures RowsOfBatch(ids, globalBatchSize, b, 0) == []
    {
      OneRowMore(ids, globalBatchSize, b, 0);
    }
    for row := 0 to |ids|
      invariant |grouped| == numBatches
      invariant forall b :: 0 <= b < numBatches ==> grouped[b] == RowsOfBatch(ids, globalBatchSize, b, row)
    {
      BatchOfRow(ids, globalBatchSize, row);
      var batch := ids[row] / globalBatchSize;
      forall b | 0 <= b < numBatches
        ensures RowsOfBatch(ids, globalBatchSize, b, row + 1)
             == RowsOfBatch(ids, globalBatchSize, b, row) + if b == batch then [row] else []
      {
        OneRowMore(ids, globalBatchSize, b, row);
      }
      grouped := grouped[batch := grouped[batch] + [row]];
    }
    r := Some(grouped);
  }

  // Padding and dealing.

  function PadCount(n: nat, dpSize: nat): nat
    requires dpSize > 0
  {
    if n % dpSize == 0 then 0 else dpSize - n % dpSize
  }

  lemma PadCompletes(n: nat, dpSize: nat)
    requires dpSize > 0
    ensures (n + PadCount(n, dpSize)) % dpSize == 0 && PadCount(n, dpSize) < dpSize
  {
    if n % dpSize != 0 {
      var q := n / dpSize;
      assert n == q * dpSize + n % dpSize;
      assert (q + 1) * dpSize == q * dpSize + dpSize;
      DivModUnique(q + 1, 0, dpSize, n + PadCount(n, dpSize));
    }
  }

  function Select<T>(rows: seq<T>, at: seq<nat>): seq<T>
    requires forall q :: 0 <= q < |at| ==> at[q] < |rows|
  {
    seq(|at|, q requires 0 <= q < |at| => rows[at[q]])
  }

  /** One scatter: the samples, the sizes, the padding payload and the per-batch shuffle shared by all ranks. */
  datatype Deal<!T> = Deal(samples: seq<Row<T>>, globalBatchSize: nat, dpSize: nat, padding: T,
      shuffle: (nat, nat) -> seq<nat>) {

    ghost predicate Valid() {
      && globalBatchSize > 0 && dpSize > 0
      && forall b: nat, n: nat :: IsPermutation(shuffle(b, n), n)
    }

    /** Samples without any trajectory id count as one trajectory each. */
    function Ids(): (ids: seq<int>)
      ensures |ids| == |samples|
    {
      if forall i :: 0 <= i < |samples| ==> samples[i].trajectoryId == -1 then seq(|samples|, i => i)
      else seq(|samples|, i requires 0 <= i < |samples| => samples[i].trajectoryId)
    }

    function Rows(b: nat): (rows: seq<nat>)
      requires globalBatchSize > 0
      ensures forall p :: 0 <= p < |rows| ==> rows[p] < |samples|
    {
      RowsOfBatch(Ids(), globalBatchSize, b, |samples|)
    }

    function Batch(b: nat): seq<Row<T>>
      requires globalBatchSize > 0 && dpSize > 0
    {
      Select(samples, Rows(b)) + seq(PadCount(|Rows(b)|, dpSize), _ => Row(-1, -1, 0, padding))
    }

    ghost function Perm(b: nat): seq<nat>
      requires Valid()
      ensures IsPermutation(Perm(b), |Batch(b)|)
    {
      shuffle(b, |Batch(b)|)
    }

    /** The rows rank `rank` receives of batch `b`. */
    ghost function Local(rank: nat, b: nat): seq<Row<T>>
      requires Valid()
    {
      Stride(Select(Batch(b), Perm(b)), rank, dpSize)
    }

    ghost function NumGlobalBatches(): int
      requires globalBatchSize > 0
    {
      NumBatches(Ids(), globalBatchSize)
    }

    lemma BatchRow(b: nat, p: nat)
      requires Valid() && p < |Batch(b)|
      ensures |Rows(b)| <= |Batch(b)|
      ensures Batch(b)[p] == if p < |Rows(b)| then samples[Rows(b)[p]] else Row(-1, -1, 0, padding)
    {
    }

    /** Slot `slot` of rank `rank` holds the row the shuffle put at the `slot`-th position of that rank. */
    lemma LocalSlot(rank: nat, b: nat, slot: nat)
      requires Valid() && rank < dpSize && slot < |Local(rank, b)|
      ensures |Local(rank, b)| == |Positions(|Batch(b)|, rank, dpSize)|
      ensures Local(rank, b)[slot] == Batch(b)[Perm(b)[Positions(|Batch(b)|, rank, dpSize)[slot]]]
    {
    }
  }

  // The grouping, in terms of the samples' own trajectory ids.

  ghost predicate HasOwnIds<T>(samples: seq<Row<T>>) {
    exists i :: 0 <= i < |samples| && samples[i].trajectoryId != -1
  }

  ghost predicate HasTrajectory<T>(samples: seq<Row<T>>, trajectory: int) {
    exists i :: 0 <= i < |samples| && samples[i].trajectoryId == trajectory
  }

  /** If any sample has a trajectory id, the ids are exactly 0 up to the largest one. */
  ghost predicate IdsAccepted<T>(samples: seq<Row<T>>) {
    HasOwnIds(samples) ==>
      && (forall i :: 0 <= i < |samples| ==> samples[i].trajectoryId >= 0)
      && (forall i, trajectory :: 0 <= i < |samples| && 0 <= trajectory <= samples[i].trajectoryId ==>
            HasTrajectory(samples, trajectory))
  }

  /**
   Every row of batch `b` other than padding is of a trajectory whose number divided by the batch size is `b`, and the
   last batch is the one of the last trajectory; without trajectory ids every sample counts as one trajectory.
   */
  ghost predicate GroupedByTrajectory<T>(d: Deal<T>, batches: seq<seq<Row<T>>>)
    requires d.globalBatchSize > 0
  {
    if HasOwnIds(d.samples) then
      && (forall b, slot :: 0 <= b < |batches| && 0 <= slot < |batches[b]| ==>
        batches[b][slot] == Row(-1, -1, 0, d.padding) || batches[b][slot].trajectoryId / d.globalBatchSize == b)
      && (forall i :: 0 <= i < |d.samples| ==> d.samples[i].trajectoryId / d.globalBatchSize < |batches|)
      && (exists i :: 0 <= i < |d.samples| && d.samples[i].trajectoryId / d.globalBatchSize == |batches| - 1)
    else
      && (forall b, slot :: 0 <= b < |batches| && 0 <= slot < |batches[b]| ==>
        || batches[b][slot] == Row(-1, -1, 0, d.padding)
        || exists i :: 0 <= i < |d.samples| && i / d.globalBatchSize == b && batches[b][slot] == d.samples[i])
      && (|batches| - 1) * d.globalBatchSize < |d.samples| <= |batches| * d.globalBatchSize
  }

  lemma IdsAre<T>(d: Deal<T>)
    ensures forall i :: 0 <= i < |d.samples| ==>
      d.Ids()[i] == if HasOwnIds(d.samples) then d.samples[i].trajectoryId else i
  {
    assert HasOwnIds(d.samples) <==> !forall i :: 0 <= i < |d.samples| ==> d.samples[i].trajectoryId == -1;
  }

  lemma IdsAcceptedIff<T>(d: Deal<T>)
    ensures ContiguousIds(d.Ids()) <==> IdsAccepted(d.samples)
  {
    hide Deal.Ids;
    IdsAre(d);
    var ids := d.Ids();
    if ids != [] && HasOwnIds(d.samples) {
      OwnIdsIff(d.samples, ids);
    } else if ids != [] {
      forall t | 0 <= t <= MaxOf(ids)
        ensures t in ids
      {
        assert ids[t] == t;
      }
    }
  }

  lemma OwnIdsIff<T>(samples: seq<Row<T>>, ids: seq<int>)
    requires ids != [] && |ids| == |samples| && HasOwnIds(samples)
    requires forall i :: 0 <= i < |ids| ==> ids[i] == samples[i].trajectoryId
    ensures ContiguousIds(ids) <==> IdsAccepted(samples)
  {
    if ContiguousIds(ids) {
      forall i, t | 0 <= i < |samples| && 0 <= t <= samples[i].trajectoryId
        ensures HasTrajectory(samples, t)
      {
        assert ids[i] <= MaxOf(ids);
        assert t in ids;
      }
    } else if IdsAccepted(samples) {
      var i :| 0 <= i < |ids| && ids[i] == MaxOf(ids);
      forall t | 0 <= t <= MaxOf(ids)
        ensures t in ids
      {
        assert HasTrajectory(samples, t);
      }
      assert false;
    }
  }

  /** The number of batches is the number of the last trajectory's batch plus one. */
  lemma LastBatch(ids: seq<int>, globalBatchSize: nat)
    requires ids != [] && MaxOf(ids) >= 0 && globalBatchSize > 0
    ensures NumBatches(ids, globalBatchSize) == MaxOf(ids) / globalBatchSize + 1
  {
    ModStep(MaxOf(ids), globalBatchSize);
  }

  lemma {:induction false} LocalGrouped<T>(d: Deal<T>, rank: nat, b: nat, slot: nat)
    requires d.Valid() && rank < d.dpSize && slot < |d.Local(rank, b)|
    ensures || d.Local(rank, b)[slot] == Row(-1, -1, 0, d.padding)
            || exists i :: 0 <= i < |d.samples| && d.Ids()[i] / d.globalBatchSize == b &&
                 d.Local(rank, b)[slot] == d.samples[i]
  {
    hide Deal.Ids;
    d.LocalSlot(rank, b, slot);
    d.BatchRow(b, d.Perm(b)[Positions(|d.Batch(b)|, rank, d.dpSize)[slot]]);
  }

  lemma {:induction false} DealtGrouped<T>(d: Deal<T>, rank: nat, batches: seq<seq<Row<T>>>)
    requires d.Valid() && rank < d.dpSize && ContiguousIds(d.Ids()) && |batches| == d.NumGlobalBatches()
    requires forall b :: 0 <= b < |batches| ==> batches[b] == d.Local(rank, b)
    ensures GroupedByTrajectory(d, batches)
  {
    hide Deal.Ids, Deal.Local, ContiguousIds;
    IdsAre(d);
    BatchCount(d);
    forall b, slot | 0 <= b < |batches| && 0 <= slot < |batches[b]|
      ensures || batches[b][slot] == Row(-1, -1, 0, d.padding)
              || exists i :: 0 <= i < |d.samples| && d.Ids()[i] / d.globalBatchSize == b &&
                   batches[b][slot] == d.samples[i]
    {
      LocalGrouped(d, rank, b, slot);
    }
  }

  lemma BatchCount<T>(d: Deal<T>)
    requires d.Valid() && ContiguousIds(d.Ids())
    ensures HasOwnIds(d.samples) ==>
              && (forall i :: 0 <= i < |d.samples| ==>
                d.samples[i].trajectoryId / d.globalBatchSize < d.NumGlobalBatches())
              && exists i :: 0 <= i < |d.samples| &&
                             d.samples[i].trajectoryId / d.globalBatchSize == d.NumGlobalBatches() - 1
    ensures !HasOwnIds(d.samples) ==>
              (d.NumGlobalBatches() - 1) * d.globalBatchSize < |d.samples|
              <= d.NumGlobalBatches() * d.globalBatchSize
  {
    hide Deal.Ids;
    IdsAre(d);
    var ids, size := d.Ids(), d.globalBatchSize;
    if ids == [] {
      NoIdsNoBatches(size);
    } else {
      LastBatch(ids, size);
      forall i | 0 <= i < |ids|
        ensures ids[i] / size < d.NumGlobalBatches()
      {
        BatchInRange(ids[i], NumTrajectories(ids), size);
      }
      if !HasOwnIds(d.samples) {
        assert ids[|ids| - 1] == |ids| - 1 && MaxOf(ids) == |ids| - 1;
        FloorBounds(MaxOf(ids), size);
        assert (MaxOf(ids) / size + 1) * size == MaxOf(ids) / size * size + size;
      }
    }
  }

  method BuildGlobalBatchesForDpRank<T>(d: Deal<T>, dpRank: nat) returns (r: Option<seq<seq<Row<T>>>>)
    requires d.Valid() && dpRank < d.dpSize
    ensures r.Some? <==> IdsAccepted(d.samples)
    ensures r.Some? ==> GroupedByTrajectory(d, r.value)
    ensures r.Some? ==> |r.value| == d.NumGlobalBatches()
    ensures r.Some? ==> forall b :: 0 <= b < |r.value| ==> r.value[b] == d.Local(dpRank, b)
  {
    hide ContiguousIds, PadCount, Positions, Deal.Ids, IdsAccepted, GroupedByTrajectory;
    IdsAcceptedIff(d);
    var ids := d.Ids();
    var grouped := GroupRowIndicesByGlobalBatch(ids, d.globalBatchSize);
    if grouped.None? {
      return None;
    }
    var slices: seq<seq<Row<T>>> := [];
    for b := 0 to |grouped.value|
      invariant |slices| == b
      invariant forall b' :: 0 <= b' < b ==> slices[b'] == d.Local(dpRank, b')
    {
      var rows := grouped.value[b];
      BatchesNonEmpty(ids, d.globalBatchSize, b);
      assert rows != [];
      var batch := Select(d.samples, rows) + seq(PadCount(|rows|, d.dpSize), _ => Row(-1, -1, 0, d.padding));
      assert batch == d.Batch(b);
      var perm := d.shuffle(b, |batch|);
      assert perm == d.Perm(b);
      slices := slices + [Stride(Select(batch, perm), dpRank, d.dpSize)];
    }
    DealtGrouped(d, dpRank, slices);
    r := Some(slices);
  }

  // Where every row goes.

  ghost predicate Dense<T>(samples: seq<Row<T>>) {
    forall i :: 0 <= i < |samples| ==> samples[i].index == i
  }

  ghost predicate Ready<T>(d: Deal<T>) {
    d.Valid() && IdsAccepted(d.samples) && Dense(d.samples)
  }

  /** The batch of sample `i`: of its trajectory, or without trajectory ids of the sample as its own trajectory. */
  ghost function BatchOfSample<T>(d: Deal<T>, i: nat): (b: int)
    requires d.globalBatchSize > 0 && i < |d.samples|
    ensures HasOwnIds(d.samples) ==> b == d.samples[i].trajectoryId / d.globalBatchSize
    ensures !HasOwnIds(d.samples) ==> b == i / d.globalBatchSize
  {
    IdsAre(d);
    d.Ids()[i] / d.globalBatchSize
  }

  /** A local row is a padding row without trainable tokens, or a sample of that batch. */
  ghost predicate BelongsTo<T>(d: Deal<T>, row: Row<T>, b: nat)
    requires d.globalBatchSize > 0
  {
    || (row.index == -1 && row.trainableTokens == 0)
    || (0 <= row.index < |d.samples| && row == d.samples[row.index] && BatchOfSample(d, row.index) == b)
  }

  lemma {:induction false} LocalRows<T>(d: Deal<T>, rank: nat, b: nat)
    requires Ready(d) && rank < d.dpSize
    ensures forall slot :: 0 <= slot < |d.Local(rank, b)| ==> BelongsTo(d, d.Local(rank, b)[slot], b)
  {
    forall slot | 0 <= slot < |d.Local(rank, b)|
      ensures BelongsTo(d, d.Local(rank, b)[slot], b)
    {
      d.LocalSlot(rank, b, slot);
      d.BatchRow(b, d.Perm(b)[Positions(|d.Batch(b)|, rank, d.dpSize)[slot]]);
    }
  }

  /** A trajectory is never spread over two batches, on whichever ranks its rows are. */
  lemma {:induction false} TrajectoryInOneBatch<T>(d: Deal<T>, rank: nat, b: nat, slot: nat, rank': nat, b': nat,
          slot': nat)
    requires Ready(d) && HasOwnIds(d.samples) && rank < d.dpSize && rank' < d.dpSize
    requires slot < |d.Local(rank, b)| && slot' < |d.Local(rank', b')|
    requires d.Local(rank, b)[slot].index >= 0 && d.Local(rank', b')[slot'].index >= 0
    requires d.Local(rank, b)[slot].trajectoryId == d.Local(rank', b')[slot'].trajectoryId
    ensures b == b' == d.Local(rank, b)[slot].trajectoryId / d.globalBatchSize
  {
    hide Deal.Local, HasOwnIds;
    LocalRows(d, rank, b);
    LocalRows(d, rank', b');
    assert BelongsTo(d, d.Local(rank, b)[slot], b) && BelongsTo(d, d.Local(rank', b')[slot'], b');
  }

  /** All ranks receive the same number of rows of a batch: its rows rounded up to a multiple of the rank count. */
  lemma {:induction false} EqualLocalRows<T>(d: Deal<T>, rank: nat, b: nat)
    requires d.Valid() && rank < d.dpSize
    ensures |d.Local(rank, b)| == (|d.Rows(b)| + PadCount(|d.Rows(b)|, d.dpSize)) / d.dpSize
    ensures |d.Rows(b)| <= |d.Local(rank, b)| * d.dpSize < |d.Rows(b)| + d.dpSize
  {
    hide PadCount, Deal.Local, Deal.Rows, Deal.Batch, Deal.Perm;
    LocalCount(d, rank, b);
    RoundUp(|d.Rows(b)|, d.dpSize);
  }

  lemma {:induction false} LocalCount<T>(d: Deal<T>, rank: nat, b: nat)
    requires d.Valid() && rank < d.dpSize
    ensures |d.Local(rank, b)| == (|d.Rows(b)| + PadCount(|d.Rows(b)|, d.dpSize)) / d.dpSize
  {
    PadCompletes(|d.Rows(b)|, d.dpSize);
    EqualShares(|d.Batch(b)|, rank, d.dpSize);
  }

  lemma RoundUp(n: nat, d: nat)
    requires d > 0
    ensures var share := (n + PadCount(n, d)) / d; n <= share * d < n + d
  {
    PadCompletes(n, d);
    FloorBounds(n + PadCount(n, d), d);
    var m := n + PadCount(n, d);
    assert m == m / d * d + m % d;
  }

  /** Every position of the padded batch is dealt to some rank and slot. */
  lemma {:induction false} PositionDealt<T>(d: Deal<T>, b: nat, p: nat) returns (rank: nat, slot: nat)
    requires d.Valid() && p < |d.Batch(b)|
    ensures rank < d.dpSize && slot < |d.Local(rank, b)| && d.Local(rank, b)[slot] == d.Batch(b)[p]
  {
    var perm, n := d.Perm(b), |d.Batch(b)|;
    assert p in perm;
    var q :| 0 <= q < |perm| && perm[q] == p;
    rank := q % d.dpSize;
    slot := SlotOf(n, d.dpSize, q);
    d.LocalSlot(rank, b, slot);
  }

  lemma {:induction false} SlotOf(n: nat, step: nat, q: nat) returns (slot: nat)
    requires step > 0 && q < n
    ensures slot < |Positions(n, q % step, step)| && Positions(n, q % step, step)[slot] == q
  {
    var rank := q % step;
    DivModUnique(0, rank, step, rank);
    RemainderAtMost(q, step);
    PositionsOfRank(n, rank, step, q);
    slot :| 0 <= slot < |Positions(n, rank, step)| && Positions(n, rank, step)[slot] == q;
  }

  lemma IdsInRange<T>(d: Deal<T>, i: nat)
    requires Ready(d) && i < |d.samples|
    ensures 0 <= BatchOfSample(d, i) < d.NumGlobalBatches()
  {
    IdsAcceptedIff(d);
    BatchInRange(d.Ids()[i], NumTrajectories(d.Ids()), d.globalBatchSize);
  }

  /** Every sample is dealt out: to the batch of its trajectory, at some rank and slot. */
  lemma {:induction false} EveryRowDealt<T>(d: Deal<T>, i: nat) returns (b: nat, rank: nat, slot: nat)
    requires Ready(d) && i < |d.samples|
    ensures b == BatchOfSample(d, i) < d.NumGlobalBatches() && rank < d.dpSize
    ensures slot < |d.Local(rank, b)| && d.Local(rank, b)[slot] == d.samples[i]
  {
    hide Deal.Ids, Deal.Local, IdsAccepted;
    IdsInRange(d, i);
    b := BatchOfSample(d, i);
    assert i in d.Rows(b);
    var p :| 0 <= p < |d.Rows(b)| && d.Rows(b)[p] == i;
    d.BatchRow(b, p);
    rank, slot := PositionDealt(d, b, p);
  }

  lemma RemainderAtMost(q: nat, d: nat)
    requires d > 0
    ensures q % d <= q
  {
    FloorBounds(q, d);
    assert q == q / d * d + q % d;
  }

  /** The shuffled position and the padded-batch position of a real local row. */
  lemma {:induction false} PositionOf<T>(d: Deal<T>, rank: nat, b: nat, slot: nat) returns (q: nat, p: nat)
    requires Ready(d) && rank < d.dpSize && slot < |d.Local(rank, b)| && d.Local(rank, b)[slot].index >= 0
    ensures slot < |Positions(|d.Batch(b)|, rank, d.dpSize)| && q == Positions(|d.Batch(b)|, rank, d.dpSize)[slot]
    ensures q < |d.Perm(b)| && q % d.dpSize == rank && d.Perm(b)[q] == p < |d.Rows(b)|
    ensures d.Local(rank, b)[slot].index == d.Rows(b)[p]
  {
    d.LocalSlot(rank, b, slot);
    q := Positions(|d.Batch(b)|, rank, d.dpSize)[slot];
    DivModUnique(0, rank, d.dpSize, rank);
    PositionsOfRank(|d.Batch(b)|, rank, d.dpSize, q);
    p := d.Perm(b)[q];
    d.BatchRow(b, p);
  }

  /** ... and only once. */
  lemma {:induction false} DealtOnce<T>(d: Deal<T>, rank: nat, b: nat, slot: nat, rank': nat, b': nat, slot': nat)
    requires Ready(d) && rank < d.dpSize && rank' < d.dpSize
    requires slot < |d.Local(rank, b)| && slot' < |d.Local(rank', b')|
    requires d.Local(rank, b)[slot].index >= 0 && d.Local(rank, b)[slot].index == d.Local(rank', b')[slot'].index
    ensures rank == rank' && b == b' && slot == slot'
  {
    var q, p := PositionOf(d, rank, b, slot);
    var q', p' := PositionOf(d, rank', b', slot');
    assert b == b';
    assert p == p';
    assert q == q';
  }

  // Gathering.

  datatype Chunk<V> = Chunk(indices: seq<int>, values: seq<V>)

  ghost predicate WellShaped<V>(chunks: seq<Chunk<V>>) {
    forall c :: 0 <= c < |chunks| ==> |chunks[c].indices| == |chunks[c].values|
  }

  /** Position `k` of chunk `c` carries a real row. */
  predicate Real<V>(chunks: seq<Chunk<V>>, c: int, k: int) {
    0 <= c < |chunks| && 0 <= k < |chunks[c].indices| && chunks[c].indices[k] >= 0
  }

  /** Some chunk before `c` carries row `i`. */
  ghost predicate Filled<V>(chunks: seq<Chunk<V>>, c: int, i: int) {
    exists c', k :: 0 <= c' < c && Real(chunks, c', k) && chunks[c'].indices[k] == i
  }

  /** The checks of the merge: indices in range, no row in two chunks, every row somewhere, at least one row. */
  ghost predicate Mergeable<V>(n: nat, chunks: seq<Chunk<V>>) {
    && n > 0
    && (forall c, k :: Real(chunks, c, k) ==> chunks[c].indices[k] < n && !Filled(chunks, c, chunks[c].indices[k]))
    && (forall i :: 0 <= i < n ==> Filled(chunks, |chunks|, i))
  }

  /** The index at `k` occurs nowhere else among the first `hi`. */
  predicate OnlyAt(indices: seq<int>, hi: nat, k: int)
    requires hi <= |indices|
  {
    0 <= k < hi && forall k' :: 0 <= k' < hi && indices[k'] == indices[k] ==> k' == k
  }

  /** One chunk of the merge: check every real index against the rows filled so far, then write all its values. */
  method MergeChunk<V>(n: nat, chunk: Chunk<V>, merged: seq<Option<V>>) returns (r: Option<seq<Option<V>>>)
    requires |merged| == n && |chunk.indices| == |chunk.values|
    ensures r.Some? <==> forall k :: 0 <= k < |chunk.indices| && chunk.indices[k] >= 0 ==>
                           chunk.indices[k] < n && merged[chunk.indices[k]].None?
    ensures r.Some? ==> |r.value| == n
    ensures r.Some? ==> forall i :: 0 <= i < n ==> (r.value[i].Some? <==> merged[i].Some? || i in chunk.indices)
    ensures r.Some? ==> forall i :: 0 <= i < n && i !in chunk.indices ==> r.value[i] == merged[i]
    ensures r.Some? ==> forall k :: OnlyAt(chunk.indices, |chunk.indices|, k) && chunk.indices[k] >= 0 ==>
                          r.value[chunk.indices[k]] == Some(chunk.values[k])
  {
    for k := 0 to |chunk.indices|
      invariant forall j :: 0 <= j < k && chunk.indices[j] >= 0 ==>
                chunk.indices[j] < n && merged[chunk.indices[j]].None?
    {
      if chunk.indices[k] >= 0 && (chunk.indices[k] >= n || merged[chunk.indices[k]].Some?) {
        return None;
      }
    }
    var written := WriteChunk(chunk, merged);
    r := Some(written);
  }

  predicate Writable<V>(n: nat, chunk: Chunk<V>) {
    && |chunk.indices| == |chunk.values|
    && forall k :: 0 <= k < |chunk.indices| && chunk.indices[k] >= 0 ==> chunk.indices[k] < n
  }

  /** The rows after the first `k` entries of the chunk are written. */
  function Written<V>(chunk: Chunk<V>, merged: seq<Option<V>>, k: nat): (written: seq<Option<V>>)
    requires Writable(|merged|, chunk) && k <= |chunk.indices|
    ensures |written| == |merged|
  {
    if k == 0 then merged
    else
      var before := Written(chunk, merged, k - 1);
      if chunk.indices[k - 1] >= 0 then before[chunk.indices[k - 1] := Some(chunk.values[k - 1])] else before
  }

  lemma {:induction false} WrittenRow<V>(chunk: Chunk<V>, merged: seq<Option<V>>, k: nat, i: nat)
    requires Writable(|merged|, chunk) && k <= |chunk.indices| && i < |merged|
    ensures Written(chunk, merged, k)[i].Some? <==> merged[i].Some? || i in chunk.indices[..k]
    ensures i !in chunk.indices[..k] ==> Written(chunk, merged, k)[i] == merged[i]
  {
    if k > 0 {
      WrittenRow(chunk, merged, k - 1, i);
      assert chunk.indices[..k] == chunk.indices[..k - 1] + [chunk.indices[k - 1]];
    }
  }

  lemma {:induction false} WrittenValue<V>(chunk: Chunk<V>, merged: seq<Option<V>>, k: nat, j: nat)
    requires Writable(|merged|, chunk) && k <= |chunk.indices|
    requires OnlyAt(chunk.indices, k, j) && chunk.indices[j] >= 0
    ensures Written(chunk, merged, k)[chunk.indices[j]] == Some(chunk.values[j])
  {
    if j < k - 1 {
      WrittenValue(chunk, merged, k - 1, j);
    }
  }

  /** Writes the values of a chunk at its real indices; the last write to an index stays. */
  method WriteChunk<V>(chunk: Chunk<V>, merged: seq<Option<V>>) returns (written: seq<Option<V>>)
    requires Writable(|merged|, chunk)
    ensures |written| == |merged|
    ensures forall i :: 0 <= i < |merged| ==> (written[i].Some? <==> merged[i].Some? || i in chunk.indices)
    ensures forall i :: 0 <= i < |merged| && i !in chunk.indices ==> written[i] == merged[i]
    ensures forall k :: OnlyAt(chunk.indices, |chunk.indices|, k) && chunk.indices[k] >= 0 ==>
              written[chunk.indices[k]] == Some(chunk.values[k])
  {
    written := merged;
    for k := 0 to |chunk.indices|
      invariant written == Written(chunk, merged, k)
    {
      if chunk.indices[k] >= 0 {
        written := written[chunk.indices[k] := Some(chunk.values[k])];
      }
    }
    WrittenOverall(chunk, merged);
  }

  lemma WrittenOverall<V>(chunk: Chunk<V>, merged: seq<Option<V>>)
    requires Writable(|merged|, chunk)
    ensures var written := Written(chunk, merged, |chunk.indices|);
      && (forall i :: 0 <= i < |merged| ==> (written[i].Some? <==> merged[i].Some? || i in chunk.indices))
      && (forall i :: 0 <= i < |merged| && i !in chunk.indices ==> written[i] == merged[i])
      && (forall k :: OnlyAt(chunk.indices, |chunk.indices|, k) && chunk.indices[k] >= 0 ==>
            written[chunk.indices[k]] == Some(chunk.values[k]))
  {
    hide Written;
    var n := |chunk.indices|;
    assert chunk.indices[..n] == chunk.indices;
    forall i | 0 <= i < |merged|
      ensures Written(chunk, merged, n)[i].Some? <==> merged[i].Some? || i in chunk.indices
      ensures i !in chunk.indices ==> Written(chunk, merged, n)[i] == merged[i]
    {
      WrittenRow(chunk, merged, n, i);
    }
    forall k | OnlyAt(chunk.indices, n, k) && chunk.indices[k] >= 0
      ensures Written(chunk, merged, n)[chunk.indices[k]] == Some(chunk.values[k])
    {
      WrittenValue(chunk, merged, n, k);
    }
  }

  /** `None` stands for a failed assertion. */
  method MergeTensorOutputs<V>(n: nat, chunks: seq<Chunk<V>>) returns (r: Option<seq<V>>)
    requires WellShaped(chunks)
    ensures r.Some? <==> Mergeable(n, chunks)
    ensures r.Some? ==> |r.value| == n
    ensures r.Some? ==> forall c, k :: Real(chunks, c, k) && OnlyAt(chunks[c].indices, |chunks[c].indices|, k) ==>
              r.value[chunks[c].indices[k]] == chunks[c].values[k]
  {
    var merged: seq<Option<V>> := seq(n, _ => None);
    for c := 0 to |chunks|
      invariant |merged| == n
      invariant forall c', k :: 0 <= c' < c && Real(chunks, c', k) ==>
                  chunks[c'].indices[k] < n && !Filled(chunks, c', chunks[c'].indices[k])
      invariant forall i :: 0 <= i < n ==> (merged[i].Some? <==> Filled(chunks, c, i))
      invariant forall c', k ::
                  0 <= c' < c && Real(chunks, c', k) && OnlyAt(chunks[c'].indices, |chunks[c'].indices|, k) ==>
                  merged[chunks[c'].indices[k]] == Some(chunks[c'].values[k])
    {
      var next := MergeChunk(n, chunks[c], merged);
      if next.None? {
        var k :| 0 <= k < |chunks[c].indices| && chunks[c].indices[k] >= 0
                 && !(chunks[c].indices[k] < n && merged[chunks[c].indices[k]].None?);
        assert Real(chunks, c, k);
        return None;
      }
      FilledStep(chunks, c, n);
      merged := next.value;
    }
    if n == 0 || exists i :: 0 <= i < n && merged[i].None? {
      return None;
    }
    r := Some(seq(n, i requires 0 <= i < n => merged[i].value));
  }

  lemma FilledStep<V>(chunks: seq<Chunk<V>>, c: nat, n: nat)
    requires c < |chunks|
    ensures forall i :: 0 <= i < n ==> (Filled(chunks, c + 1, i) <==> Filled(chunks, c, i) || i in chunks[c].indices)
  {
    forall i | 0 <= i < n
      ensures Filled(chunks, c + 1, i) <==> Filled(chunks, c, i) || i in chunks[c].indices
    {
      if i in chunks[c].indices {
        var k :| 0 <= k < |chunks[c].indices| && chunks[c].indices[k] == i;
        assert Real(chunks, c, k);
      }
    }
  }

  // Scatter, compute micro-batch by micro-batch, gather.

  /** Entry `k` of micro-batch `j` is `slot`. */
  predicate At(micro: seq<seq<nat>>, j: int, k: int, slot: nat) {
    0 <= j < |micro| && 0 <= k < |micro[j]| && micro[j][k] == slot
  }

  ghost predicate InSome(micro: seq<seq<nat>>, slot: nat) {
    exists j, k :: At(micro, j, k, slot)
  }

  /** Every slot below `n` is in exactly one micro-batch, at one place; sizes and order are free. */
  ghost predicate IsPartition(micro: seq<seq<nat>>, n: nat) {
    && (forall j, k :: 0 <= j < |micro| && 0 <= k < |micro[j]| ==> micro[j][k] < n)
    && (forall slot: nat :: slot < n ==> InSome(micro, slot))
    && (forall slot, j, k, j', k' :: At(micro, j, k, slot) && At(micro, j', k', slot) ==> j == j' && k == k')
  }

  /** How each rank splits each batch it receives, given the number of its rows. */
  type Splitter = (nat, nat, nat) -> seq<seq<nat>>

  ghost predicate Splits(split: Splitter) {
    forall rank, b, n :: IsPartition(split(rank, b, n), n)
  }

  predicate InRange(slots: seq<nat>, n: nat) {
    forall k :: 0 <= k < |slots| ==> slots[k] < n
  }

  /** The output of one micro-batch: the row index and the computed value of every row in it. */
  function Output<T, V>(local: seq<Row<T>>, slots: seq<nat>, f: Row<T> -> V): Chunk<V>
    requires InRange(slots, |local|)
  {
    Chunk(seq(|slots|, k requires 0 <= k < |slots| => local[slots[k]].index),
          seq(|slots|, k requires 0 <= k < |slots| => f(local[slots[k]])))
  }

  /** One forward pass over a local batch: an output for each of its micro-batches. */
  method ForwardBatch<T, V>(local: seq<Row<T>>, micro: seq<seq<nat>>, f: Row<T> -> V) returns (outputs: seq<Chunk<V>>)
    requires forall j :: 0 <= j < |micro| ==> InRange(micro[j], |local|)
    ensures |outputs| == |micro|
    ensures forall j :: 0 <= j < |micro| ==> outputs[j] == Output(local, micro[j], f)
  {
    outputs := [];
    for j := 0 to |micro|
      invariant |outputs| == j
      invariant forall j' :: 0 <= j' < j ==> outputs[j'] == Output(local, micro[j'], f)
    {
      outputs := outputs + [Output(local, micro[j], f)];
    }
  }

  /** Where a chunk comes from: a micro-batch of a batch of a rank. */
  datatype Part = Part(rank: nat, batch: nat, slots: seq<nat>)

  predicate Holds(parts: seq<Part>, c: int, k: int, rank: nat, b: nat, slot: nat) {
    && 0 <= c < |parts| && 0 <= k < |parts[c].slots|
    && parts[c].rank == rank && parts[c].batch == b && parts[c].slots[k] == slot
  }

  /** Every chunk is the output of its part. */
  ghost predicate Computed<T, V>(d: Deal<T>, f: Row<T> -> V, parts: seq<Part>, chunks: seq<Chunk<V>>)
    requires d.Valid()
  {
    && |parts| == |chunks|
    && forall c :: 0 <= c < |parts| ==>
      && parts[c].rank < d.dpSize
      && InRange(parts[c].slots, |d.Local(parts[c].rank, parts[c].batch)|)
      && chunks[c] == Output(d.Local(parts[c].rank, parts[c].batch), parts[c].slots, f)
  }

  /** No slot of a rank and batch is in two places. */
  ghost predicate NoneTwice(parts: seq<Part>) {
    forall rank, b, slot, c, k, c', k' ::
      Holds(parts, c, k, rank, b, slot) && Holds(parts, c', k', rank, b, slot) ==> c == c' && k == k'
  }

  ghost predicate Held(parts: seq<Part>, rank: nat, b: nat, slot: nat) {
    exists c, k :: Holds(parts, c, k, rank, b, slot)
  }

  /** Every slot of the rank and batch is somewhere. */
  ghost predicate Covers<T>(d: Deal<T>, parts: seq<Part>, rank: nat, b: nat)
    requires d.Valid()
  {
    forall slot: nat :: slot < |d.Local(rank, b)| ==> Held(parts, rank, b, slot)
  }

  /**
   `chunks` holds the outputs of all micro-batches of all ranks and batches, each row once; `parts` says which is
   where.
   */
  ghost predicate Enumerates<T, V>(d: Deal<T>, f: Row<T> -> V, parts: seq<Part>, chunks: seq<Chunk<V>>)
    requires d.Valid()
  {
    && Computed(d, f, parts, chunks) && NoneTwice(parts)
    && forall rank: nat, b: nat :: rank < d.dpSize && b < d.NumGlobalBatches() ==> Covers(d, parts, rank, b)
  }

  lemma {:induction false} RealEntry<T, V>(d: Deal<T>, f: Row<T> -> V, parts: seq<Part>, chunks: seq<Chunk<V>>, c: int,
          k: int)
    requires Ready(d) && Computed(d, f, parts, chunks) && Real(chunks, c, k)
    ensures parts[c].rank < d.dpSize && k < |parts[c].slots|
    ensures var local, slot := d.Local(parts[c].rank, parts[c].batch), parts[c].slots[k];
      && slot < |local| && chunks[c].indices[k] == local[slot].index
      && 0 <= local[slot].index < |d.samples| && local[slot] == d.samples[local[slot].index]
      && chunks[c].values[k] == f(local[slot])
  {
    hide Deal.Local;
    LocalRows(d, parts[c].rank, parts[c].batch);
    assert BelongsTo(d, d.Local(parts[c].rank, parts[c].batch)[parts[c].slots[k]], parts[c].batch);
  }

  /** Two real entries for the same sample are the same entry. */
  lemma {:induction false} EntriesDistinct<T, V>(d: Deal<T>, f: Row<T> -> V, parts: seq<Part>, chunks: seq<Chunk<V>>,
          c: int, k: int, c': int, k': int)
    requires Ready(d) && Enumerates(d, f, parts, chunks) && Real(chunks, c, k) && Real(chunks, c', k')
    requires chunks[c].indices[k] == chunks[c'].indices[k']
    ensures c == c' && k == k'
  {
    hide Deal.Local, Covers;
    RealEntry(d, f, parts, chunks, c, k);
    RealEntry(d, f, parts, chunks, c', k');
    DealtOnce(d, parts[c].rank, parts[c].batch, parts[c].slots[k], parts[c'].rank, parts[c'].batch,
        parts[c'].slots[k']);
    assert Holds(parts, c, k, parts[c].rank, parts[c].batch, parts[c].slots[k]);
    assert Holds(parts, c', k', parts[c].rank, parts[c].batch, parts[c].slots[k]);
  }

  /** Each sample's output sits at one place in the chunks. */
  lemma {:induction false} EntryOf<T, V>(d: Deal<T>, f: Row<T> -> V, parts: seq<Part>, chunks: seq<Chunk<V>>, i: nat)
    returns (c: nat, k: nat)
    requires Ready(d) && Enumerates(d, f, parts, chunks) && i < |d.samples|
    ensures Real(chunks, c, k) && chunks[c].indices[k] == i && chunks[c].values[k] == f(d.samples[i])
    ensures OnlyAt(chunks[c].indices, |chunks[c].indices|, k)
  {
    hide Deal.Local;
    var b, rank, slot := EveryRowDealt(d, i);
    assert Held(parts, rank, b, slot) by {
      assert Covers(d, parts, rank, b);
    }
    c, k :| Holds(parts, c, k, rank, b, slot);
    assert d.samples[i].index == i;
    forall k' | 0 <= k' < |chunks[c].indices| && chunks[c].indices[k'] == chunks[c].indices[k]
      ensures k' == k
    {
      assert Real(chunks, c, k');
      EntriesDistinct(d, f, parts, chunks, c, k, c, k');
    }
  }

  lemma {:induction false} DealMergeable<T, V>(d: Deal<T>, f: Row<T> -> V, parts: seq<Part>, chunks: seq<Chunk<V>>)
    requires Ready(d) && Enumerates(d, f, parts, chunks) && d.samples != []
    ensures WellShaped(chunks) && Mergeable(|d.samples|, chunks)
  {
    hide Deal.Local, Covers, NoneTwice;
    forall c, k | Real(chunks, c, k)
      ensures chunks[c].indices[k] < |d.samples| && !Filled(chunks, c, chunks[c].indices[k])
    {
      RealEntry(d, f, parts, chunks, c, k);
      if Filled(chunks, c, chunks[c].indices[k]) {
        var c', k' :| 0 <= c' < c && Real(chunks, c', k') && chunks[c'].indices[k'] == chunks[c].indices[k];
        EntriesDistinct(d, f, parts, chunks, c, k, c', k');
        assert false;
      }
    }
    forall i | 0 <= i < |d.samples|
      ensures Filled(chunks, |chunks|, i)
    {
      var c, k := EntryOf(d, f, parts, chunks, i);
    }
  }

  lemma NothingToMerge<T, V>(d: Deal<T>, f: Row<T> -> V, parts: seq<Part>, chunks: seq<Chunk<V>>)
    requires Ready(d) && Computed(d, f, parts, chunks) && d.samples == []
    ensures WellShaped(chunks) && !Mergeable(0, chunks)
  {
  }

  function PartsOf(rank: nat, b: nat, micro: seq<seq<nat>>): seq<Part> {
    seq(|micro|, j requires 0 <= j < |micro| => Part(rank, b, micro[j]))
  }

  lemma {:induction false} ExtendComputed<T, V>(d: Deal<T>, f: Row<T> -> V, parts: seq<Part>, chunks: seq<Chunk<V>>,
          rank: nat, b: nat, micro: seq<seq<nat>>, outputs: seq<Chunk<V>>)
    requires d.Valid() && rank < d.dpSize && Computed(d, f, parts, chunks)
    requires IsPartition(micro, |d.Local(rank, b)|) && |outputs| == |micro|
    requires forall j :: 0 <= j < |micro| ==> outputs[j] == Output(d.Local(rank, b), micro[j], f)
    ensures Computed(d, f, parts + PartsOf(rank, b, micro), chunks + outputs)
  {
    hide Deal.Local, Output;
  }

  ghost predicate KeepsHeld(parts: seq<Part>, next: seq<Part>) {
    forall rank, b, slot :: Held(parts, rank, b, slot) ==> Held(next, rank, b, slot)
  }

  lemma {:induction false} ExtendCovers<T>(d: Deal<T>, parts: seq<Part>, next: seq<Part>, rank: nat, b: nat)
    requires d.Valid() && KeepsHeld(parts, next)
    requires forall slot: nat :: slot < |d.Local(rank, b)| ==> Held(next, rank, b, slot)
    ensures Covers(d, next, rank, b)
    ensures forall rank', b' :: Covers(d, parts, rank', b') ==> Covers(d, next, rank', b')
  {
    hide Deal.Local, Held;
  }

  lemma {:induction false} ExtendHolds(parts: seq<Part>, rank: nat, b: nat, micro: seq<seq<nat>>, n: nat)
    requires IsPartition(micro, n) && NoneTwice(parts)
    requires forall part <- parts :: part.rank != rank || part.batch != b
    ensures NoneTwice(parts + PartsOf(rank, b, micro))
    ensures KeepsHeld(parts, parts + PartsOf(rank, b, micro))
    ensures forall slot: nat :: slot < n ==> Held(parts + PartsOf(rank, b, micro), rank, b, slot)
  {
    var next := parts + PartsOf(rank, b, micro);
    forall rank': nat, b': nat, slot: nat, c, k | Holds(next, c, k, rank', b', slot)
      ensures if c < |parts| then Holds(parts, c, k, rank', b', slot) && (rank', b') != (rank, b)
              else At(micro, c - |parts|, k, slot) && (rank', b') == (rank, b)
    {
    }
    forall rank': nat, b': nat, slot: nat | Held(parts, rank', b', slot)
      ensures Held(next, rank', b', slot)
    {
      var c, k :| Holds(parts, c, k, rank', b', slot);
      assert Holds(next, c, k, rank', b', slot);
    }
    forall slot: nat | slot < n
      ensures Held(next, rank, b, slot)
    {
      assert InSome(micro, slot);
      var j, k :| At(micro, j, k, slot);
      assert Holds(next, |parts| + j, k, rank, b, slot);
    }
  }

  /**
   Scattering the samples, applying `f` to every row in whatever micro-batches and merging by index is mapping `f` over
   the samples.
   */
  method ScatterComputeGather<T, V>(d: Deal<T>, split: Splitter, f: Row<T> -> V) returns (r: Option<seq<V>>)
    requires d.Valid() && Dense(d.samples) && Splits(split)
    ensures r.Some? <==> IdsAccepted(d.samples) && d.samples != []
    ensures r.Some? ==> r.value == seq(|d.samples|, i requires 0 <= i < |d.samples| => f(d.samples[i]))
  {
    hide Deal.Local, Deal.Rows, Deal.Batch, Deal.Perm, Output, Real, Filled, Mergeable, IdsAccepted, Dense;
    hide GroupedByTrajectory, NoneTwice, IsPartition, Computed, Held, Covers, KeepsHeld;
    var chunks: seq<Chunk<V>> := [];
    ghost var parts: seq<Part> := [];
    StartEmpty(d, f);
    for rank := 0 to d.dpSize
      invariant rank > 0 ==> IdsAccepted(d.samples)
      invariant Computed(d, f, parts, chunks) && NoneTwice(parts)
      invariant forall part <- parts :: part.rank < rank
      invariant forall rank': nat, b: nat :: rank' < rank && b < d.NumGlobalBatches() ==> Covers(d, parts, rank', b)
    {
      var local := BuildGlobalBatchesForDpRank(d, rank);
      if local.None? {
        return None;
      }
      for b := 0 to |local.value|
        invariant Computed(d, f, parts, chunks) && NoneTwice(parts)
        invariant forall part <- parts :: part.rank < rank || (part.rank == rank && part.batch < b)
        invariant forall rank': nat, b': nat :: rank' < rank && b' < d.NumGlobalBatches() ==>
                  Covers(d, parts, rank', b')
        invariant forall b': nat :: b' < b ==> Covers(d, parts, rank, b')
      {
        var micro := split(rank, b, |local.value[b]|);
        PartitionInRange(micro, |local.value[b]|);
        var outputs := ForwardBatch(local.value[b], micro, f);
        ExtendComputed(d, f, parts, chunks, rank, b, micro, outputs);
        ExtendHolds(parts, rank, b, micro, |local.value[b]|);
        ExtendCovers(d, parts, parts + PartsOf(rank, b, micro), rank, b);
        chunks := chunks + outputs;
        parts := parts + PartsOf(rank, b, micro);
      }
    }
    if d.samples == [] {
      NothingToMerge(d, f, parts, chunks);
    } else {
      DealMergeable(d, f, parts, chunks);
    }
    r := MergeTensorOutputs(|d.samples|, chunks);
    if r.Some? {
      MergedIsMapped(d, f, parts, chunks, r.value);
    }
  }

  lemma {:induction false} MergedIsMapped<T, V>(d: Deal<T>, f: Row<T> -> V, parts: seq<Part>, chunks: seq<Chunk<V>>,
          merged: seq<V>)
    requires Ready(d) && Enumerates(d, f, parts, chunks) && |merged| == |d.samples|
    requires WellShaped(chunks) && Mergeable(|d.samples|, chunks)
    requires forall c, k :: Real(chunks, c, k) && OnlyAt(chunks[c].indices, |chunks[c].indices|, k) ==>
               merged[chunks[c].indices[k]] == chunks[c].values[k]
    ensures merged == seq(|d.samples|, i requires 0 <= i < |d.samples| => f(d.samples[i]))
  {
    hide Deal.Local, Ready, Enumerates;
    forall i | 0 <= i < |d.samples|
      ensures merged[i] == f(d.samples[i])
    {
      var c, k := EntryOf(d, f, parts, chunks, i);
    }
  }

  lemma StartEmpty<T, V>(d: Deal<T>, f: Row<T> -> V)
    requires d.Valid()
    ensures Computed<T, V>(d, f, [], []) && NoneTwice([])
  {
  }

  lemma PartitionInRange(micro: seq<seq<nat>>, n: nat)
    requires IsPartition(micro, n)
    ensures forall j :: 0 <= j < |micro| ==> InRange(micro[j], n)
  {
  }
}
