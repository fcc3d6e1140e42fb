/**
 Forming training batches from a stream of rollout groups, with filtering and carry-over between rounds
 (axrl/pipeline/controller.py:638-666, 1019-1045, 1078-1176).
 */
module OnlineBatches {
  import opened Arithmetic
  import opened Regrouping

  datatype FilterType = Pass | ZeroStdAllSuccess | ZeroStdAllFail

  datatype RolloutGroup = RolloutGroup(results: seq<RolloutResult>, filterType: FilterType) {
    predicate IsValid() { filterType == Pass }
  }

  datatype TrainGroupBatch = TrainGroupBatch(validGroups: seq<RolloutGroup>, skippedGroups: seq<RolloutGroup>,
      filterTypeCounts: multiset<FilterType>)

  function FilterTypes(groups: seq<RolloutGroup>): seq<FilterType> {
    Map(groups, (g: RolloutGroup) => g.filterType)
  }

  function ValidCount(groups: seq<RolloutGroup>): nat {
    multiset(FilterTypes(groups))[Pass]
  }

  /** The groups of one round, in the order in which the stream yields them. */
  function RoundGroups(deliveries: seq<RolloutResult>, size: nat, filterOf: seq<RolloutResult> -> FilterType)
          : seq<RolloutGroup> {
    AsGroups(GroupsAfter(deliveries, size), filterOf)
  }

  function AsGroups(groups: seq<seq<RolloutResult>>, filterOf: seq<RolloutResult> -> FilterType)
          : (asGroups: seq<RolloutGroup>)
    ensures |asGroups| == |groups|
  {
    Map(groups, (results: seq<RolloutResult>) => RolloutGroup(results, filterOf(results)))
  }

  /** The groups that a batch accounts for. */
  function Accounted(batch: TrainGroupBatch): multiset<RolloutGroup> {
    multiset(batch.validGroups) + multiset(batch.skippedGroups)
  }

  function Batched(batches: seq<TrainGroupBatch>): multiset<RolloutGroup> {
    if batches == [] then multiset{} else Batched(batches[..|batches| - 1]) + Accounted(batches[|batches| - 1])
  }

  lemma {:induction false} BatchedConcat(a: seq<TrainGroupBatch>, b: seq<TrainGroupBatch>)
    ensures Batched(a + b) == Batched(a) + Batched(b)
  {
    hide Accounted;
    if b == [] {
      assert a + b == a;
    } else {
      var front := b[..|b| - 1];
      BatchedConcat(a, front);
      assert (a + b)[..|a| + |front|] == a + front;
      var last := Accounted(b[|b| - 1]);
      assert Batched(a + b) == Batched(a + front) + last && Batched(b) == Batched(front) + last;
    }
  }

  /** A batch has exactly the target number of groups, all valid, and its counts cover all its groups. */
  predicate WellFormed(batch: TrainGroupBatch, target: nat) {
    && |batch.validGroups| == target
    && (forall i :: 0 <= i < |batch.validGroups| ==> batch.validGroups[i].IsValid())
    && batch.filterTypeCounts == multiset(FilterTypes(batch.validGroups + batch.skippedGroups))
  }

  /** `random.shuffle`: some permutation. */
  method Shuffle<T>(xs: seq<T>) returns (shuffled: seq<T>)
    ensures multiset(shuffled) == multiset(xs)
  {
    var rest := xs;
    shuffled := [];
    while rest != []
      invariant multiset(shuffled) + multiset(rest) == multiset(xs)
      decreases |rest|
    {
      var i: nat :| i < |rest|;
      RemoveAt(rest, i);
      shuffled := shuffled + [rest[i]];
      rest := rest[..i] + rest[i + 1..];
    }
  }

  lemma AllValidPermutation(xs: seq<RolloutGroup>, ys: seq<RolloutGroup>)
    requires multiset(xs) == multiset(ys) && forall i :: 0 <= i < |xs| ==> xs[i].IsValid()
    ensures |ys| == |xs| && forall i :: 0 <= i < |ys| ==> ys[i].IsValid()
  {
    assert |multiset(xs)| == |xs| && |multiset(ys)| == |ys|;
    forall i | 0 <= i < |ys| ensures ys[i].IsValid() {
      assert ys[i] in multiset(ys);
      assert ys[i] in multiset(xs);
    }
  }

  /** Results regrouped as they are taken off the result queue. */
  class RolloutGroupStream {
    const size: nat
    const deliveries: seq<RolloutResult>
    const filterOf: seq<RolloutResult> -> FilterType
    var taken: nat
    var pendingGroups: Buffers

    ghost predicate Valid()
      reads this
    {
      size > 1 && taken <= |deliveries| && pendingGroups == PendingAfter(deliveries[..taken], size)
    }

    ghost function Yielded(): seq<seq<RolloutResult>>
      requires Valid()
      reads this
    {
      GroupsAfter(deliveries[..taken], size)
    }

    constructor (size: nat, deliveries: seq<RolloutResult>, filterOf: seq<RolloutResult> -> FilterType)
      requires size > 1
      ensures Valid() && this.size == size && this.deliveries == deliveries && this.filterOf == filterOf
      ensures Yielded() == []
    {
      this.size, this.deliveries, this.filterOf := size, deliveries, filterOf;
      taken, pendingGroups := 0, map[];
    }

    /** Takes results until a group is full. The source waits forever if none ever is. */
    method Next() returns (group: RolloutGroup)
      requires Valid() && |Yielded()| < |GroupsAfter(deliveries, size)|
      modifies this`taken, this`pendingGroups
      ensures Valid() && taken > old(taken)
      ensures group.filterType == filterOf(group.results)
      ensures Yielded() == old(Yielded()) + [group.results]
    {
      hide PendingAfter, GroupsAfter;
      assert deliveries[..|deliveries|] == deliveries;
      while true
        invariant Valid() && taken >= old(taken) && Yielded() == old(Yielded())
        decreases |deliveries| - taken
      {
        var result := deliveries[taken];
        var groupId := result.GroupId();
        TakeOne(deliveries[..taken], result, size);
        assert deliveries[..taken + 1] == deliveries[..taken] + [result];
        taken := taken + 1;
        var buffer := (if groupId in pendingGroups then pendingGroups[groupId] else []) + [result];
        pendingGroups := pendingGroups[groupId := buffer];
        if |buffer| < size {
          assert pendingGroups == PendingAfter(deliveries[..taken], size);
          continue;
        }
        assert |buffer| == size;
        pendingGroups := pendingGroups - {groupId};
        assert pendingGroups == PendingAfter(deliveries[..taken], size);
        group := RolloutGroup(buffer, filterOf(buffer));
        return;
      }
    }
  }

  lemma NoBatchOneBatch()
    ensures Batched([]) == multiset{}
    ensures forall batch :: Batched([batch]) == Accounted(batch)
  {
    forall batch: TrainGroupBatch ensures Batched([batch]) == Accounted(batch) {
      assert [batch][..0] == [];
    }
  }

  lemma NothingWaits()
    ensures multiset(FilterTypes([] + [])) == multiset{}
  {
  }

  lemma AsGroupsMore(groups: seq<seq<RolloutResult>>, group: RolloutGroup, filterOf: seq<RolloutResult> -> FilterType)
    requires group.filterType == filterOf(group.results)
    ensures AsGroups(groups + [group.results], filterOf) == AsGroups(groups, filterOf) + [group]
    ensures AsGroups([], filterOf) == []
  {
  }

  /**
   How many batches a round has yielded and how many valid groups wait, after some of its groups. Off policy a
   batch is cut whenever the target is reached; on policy only the last group of the round can release one, and
   only if that group is itself valid.
   */
  predicate Progress(strict: bool, target: nat, carried: nat, groups: seq<RolloutGroup>, scheduled: nat,
          batchCount: nat, valid: nat, skipped: nat) {
    var total := carried + ValidCount(groups);
    if !strict then carried < target ==> valid < target && valid + batchCount * target == total
    else if groups != [] && |groups| >= scheduled && groups[|groups| - 1].IsValid() && total >= target
    then batchCount == 1 && valid == skipped == 0
    else batchCount == 0 && valid == total
  }

  lemma ProgressStarts(strict: bool, target: nat, carried: nat, scheduled: nat, skipped: nat)
    ensures Progress(strict, target, carried, [], scheduled, 0, carried, skipped)
  {
  }

  lemma ProgressStep(strict: bool, target: nat, carried: nat, groups: seq<RolloutGroup>, group: RolloutGroup,
          scheduled: nat, batchCount: nat, valid: nat, skipped: nat, more: nat, valid': nat, skipped': nat)
    requires target > 0 && |groups| < scheduled
    requires Progress(strict, target, carried, groups, scheduled, batchCount, valid, skipped)
    requires var waiting := valid + (if group.IsValid() then 1 else 0);
      if group.IsValid() && waiting >= target && (strict ==> |groups| + 1 >= scheduled)
      then more == 1 && valid' == skipped' == 0
      else more == 0 && valid' == waiting
    ensures Progress(strict, target, carried, groups + [group], scheduled, batchCount + more, valid', skipped')
  {
    hide ValidCount;
    OneMoreType(groups, group);
    assert (batchCount + 1) * target == batchCount * target + target;
  }

  lemma Rebalance<T>(batched: multiset<T>, more: multiset<T>, waiting: multiset<T>, waiting': multiset<T>,
          total: multiset<T>, x: T)
    requires batched + waiting == total && more + waiting' == waiting + multiset{x}
    ensures batched + more + waiting' == total + multiset{x}
  {
    assert batched + more + waiting' == batched + (more + waiting');
    assert batched + (waiting + multiset{x}) == batched + waiting + multiset{x};
  }

  lemma GroupAccounted(earlier: seq<TrainGroupBatch>, yielded: seq<TrainGroupBatch>, groups: seq<RolloutGroup>,
          group: RolloutGroup, waiting: multiset<RolloutGroup>, waiting': multiset<RolloutGroup>,
          carried: multiset<RolloutGroup>)
    requires Batched(earlier) + waiting == carried + multiset(groups)
    requires Batched(yielded) + waiting' == waiting + multiset{group}
    ensures Batched(earlier + yielded) + waiting' == carried + multiset(groups + [group])
  {
    hide Batched;
    BatchedConcat(earlier, yielded);
    Rebalance(Batched(earlier), Batched(yielded), waiting, waiting', carried + multiset(groups), group);
    assert multiset(groups + [group]) == multiset(groups) + multiset{group};
  }

  /** What one round of deliveries leads to, whatever their order. */
  lemma RoundOutcome(step: nat, schedule: nat, samples: seq<string>, size: nat, deliveries: seq<RolloutResult>)
    requires size > 0
    requires multiset(Conversations(deliveries)) == multiset(Scheduled(step, schedule, samples, size))
    ensures |GroupsAfter(deliveries, size)| == |samples|
    ensures PendingAfter(deliveries, size) == map[]
    ensures forall p :: 0 <= p < |deliveries| ==> |GroupsAfter(deliveries[..p], size)| < |samples|
  {
    var ids := set id | id in ScheduledIds(step, schedule, samples);
    AnyOrderIsARound(step, schedule, samples, size, deliveries);
    ScheduledIdsDistinct(step, schedule, samples);
    RoundComplete(deliveries, ids, size);
    forall p | 0 <= p < |deliveries| ensures |GroupsAfter(deliveries[..p], size)| < |samples| {
      RoundNotOverEarly(deliveries, ids, size, p);
    }
  }

  /** A multiset of groups determines the counts of their filter types. */
  lemma SameTypes(xs: seq<RolloutGroup>, ys: seq<RolloutGroup>)
    requires multiset(xs) == multiset(ys)
    ensures multiset(FilterTypes(xs)) == multiset(FilterTypes(ys))
  {
    MapPermutation(xs, ys, (g: RolloutGroup) => g.filterType);
  }

  lemma OneMoreType(groups: seq<RolloutGroup>, group: RolloutGroup)
    ensures multiset(FilterTypes(groups + [group])) == multiset(FilterTypes(groups)) + multiset{group.filterType}
    ensures ValidCount(groups + [group]) == ValidCount(groups) + (if group.IsValid() then 1 else 0)
  {
    assert FilterTypes(groups + [group]) == FilterTypes(groups) + [group.filterType];
  }

  /** Wherever a group is filed, its filter type and the group itself are counted once more. */
  lemma FiledAmongValid(valid: seq<RolloutGroup>, skipped: seq<RolloutGroup>, group: RolloutGroup)
    ensures multiset(FilterTypes(valid + [group] + skipped))
         == multiset(FilterTypes(valid + skipped)) + multiset{group.filterType}
    ensures multiset(valid + [group]) + multiset(skipped) == multiset(valid) + multiset(skipped) + multiset{group}
  {
    hide FilterTypes;
    OneMoreType(valid + skipped, group);
    SameTypes(valid + [group] + skipped, valid + skipped + [group]);
  }

  lemma FiledAmongSkipped(valid: seq<RolloutGroup>, skipped: seq<RolloutGroup>, group: RolloutGroup)
    ensures multiset(FilterTypes(valid + (skipped + [group])))
         == multiset(FilterTypes(valid + skipped)) + multiset{group.filterType}
    ensures multiset(valid) + multiset(skipped + [group]) == multiset(valid) + multiset(skipped) + multiset{group}
  {
    hide FilterTypes;
    OneMoreType(valid + skipped, group);
    assert valid + (skipped + [group]) == valid + skipped + [group];
  }

  /** The prompts sampled for a round and the order in which its results come back. */
  datatype RoundInput = RoundInput(globalStep: nat, samples: seq<string>, deliveries: seq<RolloutResult>) {
    ghost predicate ScheduledAs(schedule: nat, size: nat) {
      samples != [] && multiset(Conversations(deliveries)) == multiset(Scheduled(globalStep, schedule, samples, size))
    }
  }

  function Generated(rounds: seq<RoundInput>, size: nat, filterOf: seq<RolloutResult> -> FilterType)
          : multiset<RolloutGroup> {
    if rounds == [] then multiset{}
    else
      var last := rounds[|rounds| - 1];
      Generated(rounds[..|rounds| - 1], size, filterOf) + multiset(RoundGroups(last.deliveries, size, filterOf))
  }

  /** How many batches are out and how many valid groups wait. */
  datatype Tally = Tally(batches: nat, waiting: nat)

  /**
   Off policy every full target is a batch. On policy a round ends in at most one batch, which takes everything that
   waits, and only if the round's last group is valid.
   */
  function RoundTally(strict: bool, target: nat, before: Tally, groups: seq<RolloutGroup>): Tally
    requires target > 0
  {
    var total := before.waiting + ValidCount(groups);
    if !strict then Tally(before.batches + total / target, total % target)
    else if groups != [] && groups[|groups| - 1].IsValid() && total >= target then Tally(before.batches + 1, 0)
    else Tally(before.batches, total)
  }

  function RunTally(strict: bool, target: nat, rounds: seq<RoundInput>, size: nat,
          filterOf: seq<RolloutResult> -> FilterType): Tally
    requires target > 0
  {
    if rounds == [] then Tally(0, 0)
    else
      var last := rounds[|rounds| - 1];
      RoundTally(strict, target, RunTally(strict, target, rounds[..|rounds| - 1], size, filterOf),
                 RoundGroups(last.deliveries, size, filterOf))
  }

  /** One round more, in what is generated and in what it leads to. */
  lemma RoundAdded(strict: bool, target: nat, rounds: seq<RoundInput>, k: nat, size: nat,
          filterOf: seq<RolloutResult> -> FilterType)
    requires target > 0 && k < |rounds|
    ensures var groups := RoundGroups(rounds[k].deliveries, size, filterOf);
      && Generated(rounds[..k + 1], size, filterOf) == Generated(rounds[..k], size, filterOf) + multiset(groups)
      && RunTally(strict, target, rounds[..k + 1], size, filterOf) ==
        RoundTally(strict, target, RunTally(strict, target, rounds[..k], size, filterOf), groups)
  {
    assert rounds[..k + 1][..k] == rounds[..k];
  }

  lemma NoRounds(strict: bool, target: nat, size: nat, filterOf: seq<RolloutResult> -> FilterType)
    requires target > 0
    ensures Generated([], size, filterOf) == multiset{} && RunTally(strict, target, [], size, filterOf) == Tally(0, 0)
  {
  }

  lemma RoundBatched(earlier: seq<TrainGroupBatch>, yielded: seq<TrainGroupBatch>, waiting: multiset<RolloutGroup>,
          waiting': multiset<RolloutGroup>, generated: multiset<RolloutGroup>, more: multiset<RolloutGroup>)
    requires Batched(earlier) + waiting == generated && Batched(yielded) + waiting' == waiting + more
    ensures Batched(earlier + yielded) + waiting' == generated + more
  {
    hide Batched;
    BatchedConcat(earlier, yielded);
    calc {
      Batched(earlier + yielded) + waiting';
      Batched(earlier) + (Batched(yielded) + waiting');
      Batched(earlier) + (waiting + more);
      generated + more;
    }
  }

  lemma ProgressTally(strict: bool, target: nat, before: Tally, groups: seq<RolloutGroup>, scheduled: nat,
          batchCount: nat, valid: nat, skipped: nat)
    requires target > 0 && |groups| == scheduled && (!strict ==> before.waiting < target)
    requires Progress(strict, target, before.waiting, groups, scheduled, batchCount, valid, skipped)
    ensures Tally(before.batches + batchCount, valid) == RoundTally(strict, target, before, groups)
    ensures !strict ==> valid < target
  {
    hide ValidCount;
    if !strict {
      DivModUnique(batchCount, valid, target, before.waiting + ValidCount(groups));
    }
  }

  class PipelineController {
    const size: nat
    const targetValidGroups: nat
    const strictOnPolicy: bool
    const filterOf: seq<RolloutResult> -> FilterType
    var rolloutScheduleId: nat
    var validRollouts: seq<RolloutGroup>
    var skippedRollouts: seq<RolloutGroup>
    var groupFilterTypes: multiset<FilterType>

    ghost predicate Valid()
      reads this
    {
      && size > 1 && targetValidGroups > 0
      && (forall i :: 0 <= i < |validRollouts| ==> validRollouts[i].IsValid())
      && groupFilterTypes == multiset(FilterTypes(validRollouts + skippedRollouts))
    }

    /** The groups waiting for a later batch. */
    ghost function Carried(): multiset<RolloutGroup>
      reads this
    {
      multiset(validRollouts) + multiset(skippedRollouts)
    }

    constructor (size: nat, targetValidGroups: nat, strictOnPolicy: bool, filterOf: seq<RolloutResult> -> FilterType)
      requires size > 1 && targetValidGroups > 0
      ensures Valid() && validRollouts == skippedRollouts == [] && rolloutScheduleId == 0
      ensures this.size == size && this.targetValidGroups == targetValidGroups
      ensures this.strictOnPolicy == strictOnPolicy && this.filterOf == filterOf
    {
      this.size, this.targetValidGroups := size, targetValidGroups;
      this.strictOnPolicy, this.filterOf := strictOnPolicy, filterOf;
      rolloutScheduleId, validRollouts, skippedRollouts, groupFilterTypes := 0, [], [], multiset{};
    }

    method BuildTrainRolloutConversations(globalStep: nat, samples: seq<string>)
      returns (conversations: seq<Conversation>)
      requires samples != []
      modifies this`rolloutScheduleId
      ensures rolloutScheduleId == old(rolloutScheduleId) + 1
      ensures conversations == Scheduled(globalStep, old(rolloutScheduleId), samples, size)
    {
      conversations := [];
      var scheduleId := rolloutScheduleId;
      rolloutScheduleId := rolloutScheduleId + 1;
      for groupIndex := 0 to |samples|
        invariant conversations == Scheduled(globalStep, scheduleId, samples[..groupIndex], size)
      {
        var groupId := Labels.GroupId(globalStep, scheduleId, groupIndex, samples[groupIndex]);
        ghost var before := conversations;
        for rolloutIndex := 0 to size
          invariant conversations == before +
                    seq(rolloutIndex, r requires 0 <= r => Conversation(samples[groupIndex], groupId, r))
        {
          conversations := conversations + [Conversation(samples[groupIndex], groupId, rolloutIndex)];
        }
        assert samples[..groupIndex + 1][..groupIndex] == samples[..groupIndex];
      }
      assert samples[..|samples|] == samples;
    }

    /**
     Cuts a batch of exactly the target size out of what is waiting; the rest of the valid groups is skipped with it.
     */
    method PrepareOnlineTrainGroupBatch() returns (batch: TrainGroupBatch)
      requires Valid() && |validRollouts| >= targetValidGroups
      modifies this`validRollouts, this`skippedRollouts
      ensures WellFormed(batch, targetValidGroups)
      ensures Accounted(batch) == old(Carried())
    {
      ghost var waiting := validRollouts + skippedRollouts;
      var shuffled := Shuffle(validRollouts);
      AllValidPermutation(validRollouts, shuffled);
      validRollouts := shuffled;
      if |validRollouts| > targetValidGroups {
        var extraRollouts := validRollouts[targetValidGroups..];
        assert validRollouts == validRollouts[..targetValidGroups] + extraRollouts;
        validRollouts := validRollouts[..targetValidGroups];
        skippedRollouts := skippedRollouts + extraRollouts;
      }
      batch := TrainGroupBatch(validRollouts, skippedRollouts, groupFilterTypes);
      assert multiset(validRollouts + skippedRollouts) == multiset(waiting);
      SameTypes(validRollouts + skippedRollouts, waiting);
    }

    method AddGroup(group: RolloutGroup)
      requires Valid()
      modifies this`validRollouts, this`skippedRollouts, this`groupFilterTypes
      ensures Valid() && Carried() == old(Carried()) + multiset{group}
      ensures |validRollouts| == old(|validRollouts|) + (if group.IsValid() then 1 else 0)
    {
      hide FilterTypes;
      groupFilterTypes := groupFilterTypes + multiset{group.filterType};
      if group.IsValid() {
        FiledAmongValid(validRollouts, skippedRollouts, group);
        validRollouts := validRollouts + [group];
      } else {
        FiledAmongSkipped(validRollouts, skippedRollouts, group);
        skippedRollouts := skippedRollouts + [group];
      }
    }

    /** Files one group of the stream and yields a batch if one is due. */
    method HandleGroup(group: RolloutGroup, generatedGroups: nat, scheduledGroups: nat)
      returns (batches: seq<TrainGroupBatch>)
      requires Valid()
      modifies this`validRollouts, this`skippedRollouts, this`groupFilterTypes
      ensures Valid()
      ensures Batched(batches) + Carried() == old(Carried()) + multiset{group}
      ensures forall i :: 0 <= i < |batches| ==> WellFormed(batches[i], targetValidGroups)
      ensures var waiting := old(|validRollouts|) + (if group.IsValid() then 1 else 0);
        if group.IsValid() && waiting >= targetValidGroups && (strictOnPolicy ==> generatedGroups >= scheduledGroups)
        then |batches| == 1 && validRollouts == skippedRollouts == []
        else batches == [] && |validRollouts| == waiting
    {
      hide FilterTypes, WellFormed, Accounted, Batched;
      NoBatchOneBatch();
      AddGroup(group);
      batches := [];
      if !group.IsValid() || |validRollouts| < targetValidGroups {
        return;
      }
      if strictOnPolicy && generatedGroups < scheduledGroups {
        return;
      }
      var batch := PrepareOnlineTrainGroupBatch();
      batches := [batch];
      validRollouts, skippedRollouts, groupFilterTypes := [], [], multiset{};
      NothingWaits();
    }

    /** The inner loop of a round: takes the scheduled number of groups off the stream and files each. */
    method StreamRound(groupStream: RolloutGroupStream, scheduledGroups: nat) returns (batches: seq<TrainGroupBatch>)
      requires Valid() && groupStream.Valid() && groupStream.filterOf == filterOf && groupStream.Yielded() == []
      requires scheduledGroups <= |GroupsAfter(groupStream.deliveries, groupStream.size)|
      modifies this`validRollouts, this`skippedRollouts, this`groupFilterTypes, groupStream
      ensures Valid() && groupStream.Valid() && |groupStream.Yielded()| == scheduledGroups
      ensures Batched(batches) + Carried() == old(Carried()) + multiset(AsGroups(groupStream.Yielded(), filterOf))
      ensures Progress(strictOnPolicy, targetValidGroups, old(|validRollouts|),
                       AsGroups(groupStream.Yielded(), filterOf), scheduledGroups,
                       |batches|, |validRollouts|, |skippedRollouts|)
      ensures forall i :: 0 <= i < |batches| ==> WellFormed(batches[i], targetValidGroups)
    {
      hide FilterTypes, WellFormed, Batched, AsGroups, GroupsAfter, PendingAfter, Progress, ValidCount;
      batches := [];
      var generatedGroups := 0;
      ghost var groups: seq<RolloutGroup>, carried := [], |validRollouts|;
      NoBatchOneBatch();
      AsGroupsMore([], RolloutGroup([], filterOf([])), filterOf);
      ProgressStarts(strictOnPolicy, targetValidGroups, carried, scheduledGroups, |skippedRollouts|);
      while generatedGroups < scheduledGroups
        invariant Valid() && groupStream.Valid() && generatedGroups == |groups| <= scheduledGroups
        invariant groups == AsGroups(groupStream.Yielded(), filterOf)
        invariant Batched(batches) + Carried() == old(Carried()) + multiset(groups)
        invariant forall i :: 0 <= i < |batches| ==> WellFormed(batches[i], targetValidGroups)
        invariant Progress(strictOnPolicy, targetValidGroups, carried, groups, scheduledGroups,
                           |batches|, |validRollouts|, |skippedRollouts|)
      {
        ghost var waiting := Carried();
        var group, yielded := FileNext(groupStream, generatedGroups, scheduledGroups, groups, carried, |batches|);
        GroupAccounted(batches, yielded, groups, group, waiting, Carried(), old(Carried()));
        generatedGroups := generatedGroups + 1;
        batches, groups := batches + yielded, groups + [group];
      }
    }

    /** Takes one group off the stream and files it. */
    method FileNext(groupStream: RolloutGroupStream, generatedGroups: nat, scheduledGroups: nat,
            ghost groups: seq<RolloutGroup>, ghost carried: nat, ghost batchCount: nat)
      returns (group: RolloutGroup, yielded: seq<TrainGroupBatch>)
      requires Valid() && groupStream.Valid() && groupStream.filterOf == filterOf
      requires generatedGroups == |groups| < scheduledGroups
      requires scheduledGroups <= |GroupsAfter(groupStream.deliveries, groupStream.size)|
      requires groups == AsGroups(groupStream.Yielded(), filterOf)
      requires Progress(strictOnPolicy, targetValidGroups, carried, groups, scheduledGroups,
                        batchCount, |validRollouts|, |skippedRollouts|)
      modifies this`validRollouts, this`skippedRollouts, this`groupFilterTypes, groupStream
      ensures Valid() && groupStream.Valid()
      ensures groups + [group] == AsGroups(groupStream.Yielded(), filterOf)
      ensures Batched(yielded) + Carried() == old(Carried()) + multiset{group}
      ensures forall i :: 0 <= i < |yielded| ==> WellFormed(yielded[i], targetValidGroups)
      ensures Progress(strictOnPolicy, targetValidGroups, carried, groups + [group], scheduledGroups,
                       batchCount + |yielded|, |validRollouts|, |skippedRollouts|)
    {
      hide FilterTypes, WellFormed, Batched, AsGroups, GroupsAfter, PendingAfter, Progress, ValidCount;
      ghost var before := groupStream.Yielded();
      ghost var valid, skipped := |validRollouts|, |skippedRollouts|;
      group := groupStream.Next();
      AsGroupsMore(before, group, filterOf);
      yielded := HandleGroup(group, generatedGroups + 1, scheduledGroups);
      ProgressStep(strictOnPolicy, targetValidGroups, carried, groups, group, scheduledGroups,
                   batchCount, valid, skipped, |yielded|, |validRollouts|, |skippedRollouts|);
    }

    /**
     One round of the outer loop, for any order in which its rollouts come back. Every generated group is in
     exactly one batch or still waits, and the group stream is dropped with every result taken and no buffer open.
     */
    method RunRound(globalStep: nat, samples: seq<string>, deliveries: seq<RolloutResult>)
      returns (batches: seq<TrainGroupBatch>, ghost leftOver: Buffers)
      requires Valid() && samples != []
      requires multiset(Conversations(deliveries)) == multiset(Scheduled(globalStep, rolloutScheduleId, samples, size))
      modifies this
      ensures Valid() && rolloutScheduleId == old(rolloutScheduleId) + 1
      ensures |RoundGroups(deliveries, size, filterOf)| == |samples|
      ensures Batched(batches) + Carried() == old(Carried()) + multiset(RoundGroups(deliveries, size, filterOf))
      ensures Progress(strictOnPolicy, targetValidGroups, old(|validRollouts|),
                       RoundGroups(deliveries, size, filterOf), |samples|,
                       |batches|, |validRollouts|, |skippedRollouts|)
      ensures forall i :: 0 <= i < |batches| ==> WellFormed(batches[i], targetValidGroups)
      ensures leftOver == map[]
    {
      hide FilterTypes, WellFormed, Batched, AsGroups, GroupsAfter, PendingAfter, Scheduled, Conversations, Progress;
      RoundOutcome(globalStep, rolloutScheduleId, samples, size, deliveries);
      var conversations := BuildTrainRolloutConversations(globalStep, samples);
      var groupStream := new RolloutGroupStream(size, deliveries, filterOf);
      batches := StreamRound(groupStream, |samples|);
      assert deliveries[..|deliveries|] == deliveries;
      assert groupStream.taken == |deliveries|;
      leftOver := groupStream.pendingGroups;
    }

    /**
     A whole training run of rounds: all groups ever generated, counted with multiplicity, are the groups of the
     yielded batches plus those still waiting.
     */
    method StreamOnlineTrainGroupBatches(rounds: seq<RoundInput>) returns (batches: seq<TrainGroupBatch>)
      requires Valid() && validRollouts == skippedRollouts == []
      requires forall k :: 0 <= k < |rounds| ==> rounds[k].ScheduledAs(rolloutScheduleId + k, size)
      modifies this
      ensures Valid()
      ensures Batched(batches) + Carried() == Generated(rounds, size, filterOf)
      ensures Tally(|batches|, |validRollouts|) ==
              RunTally(strictOnPolicy, targetValidGroups, rounds, size, filterOf)
      ensures forall i :: 0 <= i < |batches| ==> WellFormed(batches[i], targetValidGroups)
    {
      hide Batched, Scheduled, WellFormed, FilterTypes, Progress, RoundGroups, RoundTally, RunTally, Generated;
      NoRounds(strictOnPolicy, targetValidGroups, size, filterOf);
      batches := [];
      NoBatchOneBatch();
      for k := 0 to |rounds|
        invariant Valid() && rolloutScheduleId == old(rolloutScheduleId) + k
        invariant Batched(batches) + Carried() == Generated(rounds[..k], size, filterOf)
        invariant !strictOnPolicy ==> |validRollouts| < targetValidGroups
        invariant Tally(|batches|, |validRollouts|) ==
                  RunTally(strictOnPolicy, targetValidGroups, rounds[..k], size, filterOf)
        invariant forall i :: 0 <= i < |batches| ==> WellFormed(batches[i], targetValidGroups)
      {
        ghost var waiting := Carried();
        ghost var before := Tally(|batches|, |validRollouts|);
        var yielded, leftOver := RunRound(rounds[k].globalStep, rounds[k].samples, rounds[k].deliveries);
        ghost var groups := RoundGroups(rounds[k].deliveries, size, filterOf);
        RoundAdded(strictOnPolicy, targetValidGroups, rounds, k, size, filterOf);
        RoundBatched(batches, yielded, waiting, Carried(), Generated(rounds[..k], size, filterOf), multiset(groups));
        ProgressTally(strictOnPolicy, targetValidGroups, before, groups, |rounds[k].samples|,
                      |yielded|, |validRollouts|, |skippedRollouts|);
        batches := batches + yielded;
      }
      assert rounds[..|rounds|] == rounds;
    }
  }
}
