/**
 Which models and caches are on the GPUs, operation by operation
 (axrl/controller/stage_manager.py:27-110; axrl/pipeline/controller.py:1101-1175, 1310-1316, 1540-1653).
 */
module Residency {

  datatype Placement = Placement(weights: bool, kvCache: bool, paused: bool, actor: bool, value: bool)

  /** What must hold after every single operation. */
  predicate Safe(p: Placement) {
    && (p.kvCache ==> !p.actor && !p.value)
    && !(p.actor && p.value)
  }

  /** The operations on the workers, one at a time. */
  datatype Operation =
    | PauseGeneration | ResumeGeneration | ReleaseRollout | ResumeWeights | ResumeKvCache
    | ActorToCpu | ActorToGpu | ValueToCpu | ValueToGpu

  function Apply(p: Placement, op: Operation): Placement {
    match op
    case PauseGeneration => p.(paused := true)
    case ResumeGeneration => p.(paused := false)
    case ReleaseRollout => p.(weights := false, kvCache := false)
    case ResumeWeights => p.(weights := true)
    case ResumeKvCache => p.(kvCache := true)
    case ActorToCpu => p.(actor := false)
    case ActorToGpu => p.(actor := true)
    case ValueToCpu => p.(value := false)
    case ValueToGpu => p.(value := true)
  }

  /** Workers are created off the GPU. */
  const CREATED := Placement(false, false, false, false, false)

  /** All the operations carried out so far, latest last. */
  datatype Run = Created | Then(before: Run, op: Operation)

  function After(run: Run): Placement {
    match run
    case Created => CREATED
    case Then(before, op) => Apply(After(before), op)
  }

  /** Safe now and after every earlier operation. */
  predicate AlwaysSafe(run: Run) {
    Safe(After(run)) && (run.Then? ==> AlwaysSafe(run.before))
  }

  datatype Stage = WeightSync | Rollout | Train | ValueTrain

  function ValueOff(run: Run, hasValueWorker: bool): Run {
    if hasValueWorker then Then(run, ValueToCpu) else run
  }

  function PauseRelease(run: Run): Run {
    Then(Then(run, PauseGeneration), ReleaseRollout)
  }

  /** The operations of each stage switch, in order. */
  function SwitchTo(run: Run, stage: Stage, hasValueWorker: bool): Run {
    match stage
    case WeightSync => Then(ValueOff(Then(PauseRelease(run), ResumeWeights), hasValueWorker), ActorToGpu)
    case Rollout => Then(Then(Then(ValueOff(Then(run, ActorToCpu), hasValueWorker), ResumeWeights), ResumeKvCache),
        ResumeGeneration)
    case Train => Then(ValueOff(PauseRelease(run), hasValueWorker), ActorToGpu)
    case ValueTrain => Then(Then(PauseRelease(run), ActorToCpu), ValueToGpu)
  }

  /** The controller's direct moves around the value forward pass, and between value and actor training. */
  function PreparePpoMoves(run: Run): Run {
    Then(Then(run, ActorToCpu), ValueToGpu)
  }

  function TrainPpoMoves(run: Run): Run {
    Then(Then(run, ValueToCpu), ActorToGpu)
  }

  class RolloutWorker {
    var weights: bool
    var kvCache: bool
    var paused: bool

    /** As created for colocated placement: everything released, generation not paused. */
    constructor ()
      ensures !weights && !kvCache && !paused
    {
      weights, kvCache, paused := false, false, false;
    }

    method PauseGeneration()
      modifies this`paused
      ensures paused
    {
      paused := true;
    }

    method ResumeGeneration()
      modifies this`paused
      ensures !paused
    {
      paused := false;
    }

    method ReleaseGpuMemory()
      modifies this`weights, this`kvCache
      ensures !weights && !kvCache
    {
      weights, kvCache := false, false;
    }

    method ResumeWeights()
      modifies this`weights
      ensures weights
    {
      weights := true;
    }

    method ResumeKvCache()
      modifies this`kvCache
      ensures kvCache
    {
      kvCache := true;
    }
  }

  class MegatronWorker {
    var isOnGpu: bool

    constructor ()
      ensures !isOnGpu
    {
      isOnGpu := false;
    }

    method ToCpu()
      modifies this
      ensures !isOnGpu
    {
      isOnGpu := false;
    }

    method ToGpu()
      modifies this
      ensures isOnGpu
    {
      isOnGpu := true;
    }
  }

  class ColocatedStageManager {
    const rolloutWorker: RolloutWorker
    const megatronWorker: MegatronWorker
    const valueWorker: MegatronWorker?
    /** Every operation so far. */
    ghost var operations: Run

    ghost function Workers(): set<object> {
      {rolloutWorker, megatronWorker} + (if valueWorker == null then {} else {valueWorker})
    }

    ghost function Now(): Placement
      reads Workers()
    {
      Placement(rolloutWorker.weights, rolloutWorker.kvCache, rolloutWorker.paused, megatronWorker.isOnGpu,
                valueWorker != null && valueWorker.isOnGpu)
    }

    ghost predicate Valid()
      reads this, Workers()
    {
      megatronWorker != valueWorker && Now() == After(operations) && AlwaysSafe(operations)
    }

    constructor (withValueWorker: bool)
      ensures Valid() && fresh(Workers()) && operations == Created && (valueWorker != null <==> withValueWorker)
    {
      rolloutWorker := new RolloutWorker();
      megatronWorker := new MegatronWorker();
      var value: MegatronWorker? := null;
      if withValueWorker {
        value := new MegatronWorker();
      }
      valueWorker := value;
      operations := Created;
    }

    /** Logs the operation that has just been carried out; it must have left a safe placement. */
    ghost method Record(op: Operation)
      requires megatronWorker != valueWorker && AlwaysSafe(operations)
      requires Now() == Apply(After(operations), op) && Safe(Now())
      modifies this`operations
      ensures Valid() && operations == Then(old(operations), op)
    {
      operations := Then(operations, op);
    }

    method ValueToCpuIfAny()
      requires Valid()
      modifies this`operations, Workers()
      ensures Valid() && operations == ValueOff(old(operations), valueWorker != null)
      ensures Now() == old(Now()).(value := false)
    {
      if valueWorker != null {
        valueWorker.ToCpu();
        Record(ValueToCpu);
      }
    }

    method PauseAndRelease()
      requires Valid()
      modifies this`operations, rolloutWorker
      ensures Valid() && operations == PauseRelease(old(operations))
      ensures Now() == old(Now()).(paused := true, weights := false, kvCache := false)
    {
      rolloutWorker.PauseGeneration();
      Record(PauseGeneration);
      rolloutWorker.ReleaseGpuMemory();
      Record(ReleaseRollout);
    }

    method SwitchToWeightSync()
      requires Valid()
      modifies this`operations, Workers()
      ensures Valid() && operations == SwitchTo(old(operations), WeightSync, valueWorker != null)
      ensures Now() == Placement(true, false, true, true, false)
    {
      PauseAndRelease();
      rolloutWorker.ResumeWeights();
      Record(ResumeWeights);
      ValueToCpuIfAny();
      megatronWorker.ToGpu();
      Record(ActorToGpu);
    }

    method SwitchToRollout()
      requires Valid()
      modifies this`operations, Workers()
      ensures Valid() && operations == SwitchTo(old(operations), Rollout, valueWorker != null)
      ensures Now() == Placement(true, true, false, false, false)
    {
      megatronWorker.ToCpu();
      Record(ActorToCpu);
      ValueToCpuIfAny();
      rolloutWorker.ResumeWeights();
      Record(ResumeWeights);
      rolloutWorker.ResumeKvCache();
      Record(ResumeKvCache);
      rolloutWorker.ResumeGeneration();
      Record(ResumeGeneration);
    }

    method SwitchToTrain()
      requires Valid()
      modifies this`operations, Workers()
      ensures Valid() && operations == SwitchTo(old(operations), Train, valueWorker != null)
      ensures Now() == Placement(false, false, true, true, false)
    {
      PauseAndRelease();
      ValueToCpuIfAny();
      megatronWorker.ToGpu();
      Record(ActorToGpu);
    }

    method SwitchToValueTrain()
      requires Valid() && valueWorker != null
      modifies this`operations, Workers()
      ensures Valid() && operations == SwitchTo(old(operations), ValueTrain, true)
      ensures Now() == Placement(false, false, true, false, true)
    {
      PauseAndRelease();
      megatronWorker.ToCpu();
      Record(ActorToCpu);
      valueWorker.ToGpu();
      Record(ValueToGpu);
    }

    /** The controller's own moves around the value forward pass. */
    method PreparePpoTrainingSamples()
      requires Valid() && valueWorker != null && !Now().kvCache
      modifies this`operations, Workers()
      ensures Valid() && operations == PreparePpoMoves(old(operations))
      ensures Now() == old(Now()).(actor := false, value := true)
    {
      megatronWorker.ToCpu();
      Record(ActorToCpu);
      valueWorker.ToGpu();
      Record(ValueToGpu);
    }

    /** The controller's own moves between value and actor training. */
    method TrainOnlineSampleDataset(ppo: bool, shouldTrainActor: bool) returns (actorTrained: bool)
      requires Valid() && !Now().kvCache
      requires if ppo then valueWorker != null && Now().value else Now().actor
      modifies this`operations, Workers()
      ensures Valid()
      ensures operations ==
        if !ppo then old(operations) else if shouldTrainActor then TrainPpoMoves(old(operations))
          else Then(old(operations), ValueToCpu)
      ensures actorTrained <==> !ppo || shouldTrainActor
      ensures actorTrained ==> Now().actor
    {
      if ppo {
        // The value worker, which is on the GPU, trains here.
        valueWorker.ToCpu();
        Record(ValueToCpu);
        if !shouldTrainActor {
          return false;
        }
        megatronWorker.ToGpu();
        Record(ActorToGpu);
      }
      // The actor, which is on the GPU, trains here.
      actorTrained := true;
    }
  }

  // ---------------------------------------------------------------- disaggregated placement

  /** The rollout engine has its own GPUs; only the trainers take turns. */
  function SwitchDisaggregated(run: Run, stage: Stage, hasValueWorker: bool): Run {
    match stage
    case WeightSync => Then(ValueOff(run, hasValueWorker), ActorToGpu)
    case Rollout => Then(Then(Then(run, ResumeWeights), ResumeKvCache), ResumeGeneration)
    case Train => Then(ValueOff(run, hasValueWorker), ActorToGpu)
    case ValueTrain => Then(Then(run, ActorToCpu), ValueToGpu)
  }

  predicate TrainersExclusive(run: Run) {
    !(After(run).actor && After(run).value) && (run.Then? ==> TrainersExclusive(run.before))
  }

  class DisaggregatedStageManager {
    const rolloutWorker: RolloutWorker
    const megatronWorker: MegatronWorker
    const valueWorker: MegatronWorker?
    ghost var operations: Run

    ghost function Workers(): set<object> {
      {rolloutWorker, megatronWorker} + (if valueWorker == null then {} else {valueWorker})
    }

    ghost function Now(): Placement
      reads Workers()
    {
      Placement(rolloutWorker.weights, rolloutWorker.kvCache, rolloutWorker.paused, megatronWorker.isOnGpu,
                valueWorker != null && valueWorker.isOnGpu)
    }

    ghost predicate Valid()
      reads this, Workers()
    {
      megatronWorker != valueWorker && Now() == After(operations) && TrainersExclusive(operations)
    }

    constructor (withValueWorker: bool)
      ensures Valid() && fresh(Workers()) && operations == Created && (valueWorker != null <==> withValueWorker)
    {
      rolloutWorker := new RolloutWorker();
      megatronWorker := new MegatronWorker();
      var value: MegatronWorker? := null;
      if withValueWorker {
        value := new MegatronWorker();
      }
      valueWorker := value;
      operations := Created;
    }

    ghost method Record(op: Operation)
      requires megatronWorker != valueWorker && TrainersExclusive(operations)
      requires Now() == Apply(After(operations), op) && !(Now().actor && Now().value)
      modifies this`operations
      ensures Valid() && operations == Then(old(operations), op)
    {
      operations := Then(operations, op);
    }

    /** Both the weight sync and the training stage hand the trainers' GPUs to the actor. */
    method ActorTakesOver(stage: Stage)
      requires Valid() && (stage == WeightSync || stage == Train)
      modifies this`operations, Workers()
      ensures Valid() && operations == SwitchDisaggregated(old(operations), stage, valueWorker != null)
      ensures Now() == old(Now()).(actor := true, value := false)
    {
      if valueWorker != null {
        valueWorker.ToCpu();
        Record(ValueToCpu);
      }
      megatronWorker.ToGpu();
      Record(ActorToGpu);
    }

    method SwitchToRollout()
      requires Valid()
      modifies this`operations, rolloutWorker
      ensures Valid() && operations == SwitchDisaggregated(old(operations), Rollout, valueWorker != null)
      ensures Now() == old(Now()).(weights := true, kvCache := true, paused := false)
    {
      rolloutWorker.ResumeWeights();
      Record(ResumeWeights);
      rolloutWorker.ResumeKvCache();
      Record(ResumeKvCache);
      rolloutWorker.ResumeGeneration();
      Record(ResumeGeneration);
    }

    method SwitchToValueTrain()
      requires Valid() && valueWorker != null
      modifies this`operations, Workers()
      ensures Valid() && operations == SwitchDisaggregated(old(operations), ValueTrain, true)
      ensures Now() == old(Now()).(actor := false, value := true)
    {
      megatronWorker.ToCpu();
      Record(ActorToCpu);
      valueWorker.ToGpu();
      Record(ValueToGpu);
    }

    /** The controller's own moves around the value forward pass: here they need no condition on the KV cache. */
    method PreparePpoTrainingSamples()
      requires Valid() && valueWorker != null
      modifies this`operations, Workers()
      ensures Valid() && operations == PreparePpoMoves(old(operations))
      ensures Now() == old(Now()).(actor := false, value := true)
    {
      megatronWorker.ToCpu();
      Record(ActorToCpu);
      valueWorker.ToGpu();
      Record(ValueToGpu);
    }

    /** The controller's own moves between value and actor training. */
    method TrainOnlineSampleDataset(ppo: bool, shouldTrainActor: bool) returns (actorTrained: bool)
      requires Valid() && if ppo then valueWorker != null && Now().value else Now().actor
      modifies this`operations, Workers()
      ensures Valid()
      ensures operations ==
        if !ppo then old(operations) else if shouldTrainActor then TrainPpoMoves(old(operations))
          else Then(old(operations), ValueToCpu)
      ensures actorTrained <==> !ppo || shouldTrainActor
      ensures Now() == if ppo then old(Now()).(actor := old(Now()).actor || shouldTrainActor, value := false)
              else old(Now())
    {
      if ppo {
        valueWorker.ToCpu();
        Record(ValueToCpu);
        if !shouldTrainActor {
          return false;
        }
        megatronWorker.ToGpu();
        Record(ActorToGpu);
      }
      actorTrained := true;
    }
  }

  // ---------------------------------------------------------------- all runs

  /** One step of the controller: a stage switch or one of its direct moves. */
  datatype Step = Switch(stage: Stage) | PreparePpo | TrainPpo {
    predicate IsDirect() { PreparePpo? || TrainPpo? }

    predicate UsesValueWorker() { IsDirect() || this == Switch(ValueTrain) }

    function Operations(run: Run, hasValueWorker: bool): Run {
      match this
      case Switch(stage) => SwitchTo(run, stage, hasValueWorker)
      case PreparePpo => PreparePpoMoves(run)
      case TrainPpo => TrainPpoMoves(run)
    }
  }

  function RunSteps(steps: seq<Step>, hasValueWorker: bool): Run {
    if steps == [] then Created
    else steps[|steps| - 1].Operations(RunSteps(steps[..|steps| - 1], hasValueWorker), hasValueWorker)
  }

  lemma OneMore(run: Run, op: Operation)
    ensures After(Then(run, op)) == Apply(After(run), op)
    ensures AlwaysSafe(Then(run, op)) <==> AlwaysSafe(run) && Safe(Apply(After(run), op))
    ensures AlwaysSafe(run) ==> Safe(After(run))
  {
  }

  /**
   From a safe run, a stage switch stays safe at each of its operations, and a direct move does so exactly if the
   KV cache is off the GPU when it starts.
   */
  lemma StepSafeIff(run: Run, step: Step, hasValueWorker: bool)
    requires After(run).value ==> hasValueWorker
    requires step.UsesValueWorker() ==> hasValueWorker
    ensures var next := step.Operations(run, hasValueWorker);
      && (AlwaysSafe(next) <==> AlwaysSafe(run) && (step.IsDirect() ==> !After(run).kvCache))
      && (After(next).value ==> hasValueWorker)
  {
    hide AlwaysSafe, After;
    OneMore(run, PauseGeneration);
    OneMore(Then(run, PauseGeneration), ReleaseRollout);
    var released := PauseRelease(run);
    match step
    case Switch(WeightSync) =>
      OneMore(released, ResumeWeights);
      var resumed := Then(released, ResumeWeights);
      OneMore(resumed, ValueToCpu);
      OneMore(ValueOff(resumed, hasValueWorker), ActorToGpu);
    case Switch(Rollout) =>
      OneMore(run, ActorToCpu);
      OneMore(Then(run, ActorToCpu), ValueToCpu);
      var off := ValueOff(Then(run, ActorToCpu), hasValueWorker);
      OneMore(off, ResumeWeights);
      OneMore(Then(off, ResumeWeights), ResumeKvCache);
      OneMore(Then(Then(off, ResumeWeights), ResumeKvCache), ResumeGeneration);
    case Switch(Train) =>
      OneMore(released, ValueToCpu);
      OneMore(ValueOff(released, hasValueWorker), ActorToGpu);
    case Switch(ValueTrain) =>
      OneMore(released, ActorToCpu);
      OneMore(Then(released, ActorToCpu), ValueToGpu);
    case PreparePpo =>
      OneMore(run, ActorToCpu);
      OneMore(Then(run, ActorToCpu), ValueToGpu);
    case TrainPpo =>
      OneMore(run, ValueToCpu);
      OneMore(Then(run, ValueToCpu), ActorToGpu);
  }

  /** The direct moves of a run all start with the KV cache off the GPU. */
  predicate DirectMovesWithoutKvCache(steps: seq<Step>, hasValueWorker: bool) {
    forall k :: 0 <= k < |steps| && steps[k].IsDirect() ==> !After(RunSteps(steps[..k], hasValueWorker)).kvCache
  }

  /**
   Over every run of stage switches and direct moves, in any order: at every single operation the KV cache never
   shares the GPU with a trainer and the trainers never share it with each other, if and only if the direct moves
   are made without KV cache.
   */
  lemma {:induction false} RunsSafeIff(steps: seq<Step>, hasValueWorker: bool)
    requires forall k :: 0 <= k < |steps| && steps[k].UsesValueWorker() ==> hasValueWorker
    ensures AlwaysSafe(RunSteps(steps, hasValueWorker)) <==> DirectMovesWithoutKvCache(steps, hasValueWorker)
    ensures After(RunSteps(steps, hasValueWorker)).value ==> hasValueWorker
  {
    if steps != [] {
      var n := |steps| - 1;
      RunsSafeIff(steps[..n], hasValueWorker);
      StepSafeIff(RunSteps(steps[..n], hasValueWorker), steps[n], hasValueWorker);
      assert forall k :: 0 <= k <= n ==> steps[..n][..k] == steps[..k];
      if DirectMovesWithoutKvCache(steps, hasValueWorker) {
        forall k | 0 <= k < n && steps[..n][k].IsDirect()
          ensures !After(RunSteps(steps[..n][..k], hasValueWorker)).kvCache
        {
          assert steps[k].IsDirect();
        }
      }
    }
  }

  function RunDisaggregated(steps: seq<Step>, hasValueWorker: bool): Run {
    if steps == [] then Created
    else
      var before := RunDisaggregated(steps[..|steps| - 1], hasValueWorker);
      match steps[|steps| - 1]
      case Switch(stage) => SwitchDisaggregated(before, stage, hasValueWorker)
      case PreparePpo => PreparePpoMoves(before)
      case TrainPpo => TrainPpoMoves(before)
  }

  lemma OneMoreExclusive(run: Run, op: Operation)
    ensures After(Then(run, op)) == Apply(After(run), op)
    ensures TrainersExclusive(Then(run, op)) <==>
      TrainersExclusive(run) && !(Apply(After(run), op).actor && Apply(After(run), op).value)
    ensures TrainersExclusive(run) ==> !(After(run).actor && After(run).value)
  {
  }

  /**
   Disaggregated runs, direct moves at any time included, never have both trainers on the GPU. Once the engine's
   weights and cache are resident they stay so; a weight sync does not bring them there, only a rollout stage does.
   */
  lemma {:induction false} DisaggregatedRunsExclusive(steps: seq<Step>, hasValueWorker: bool)
    requires forall k :: 0 <= k < |steps| && steps[k].UsesValueWorker() ==> hasValueWorker
    ensures TrainersExclusive(RunDisaggregated(steps, hasValueWorker))
    ensures After(RunDisaggregated(steps, hasValueWorker)).value ==> hasValueWorker
    ensures After(RunDisaggregated(steps, hasValueWorker)).weights <==> Switch(Rollout) in steps
    ensures After(RunDisaggregated(steps, hasValueWorker)).kvCache <==> Switch(Rollout) in steps
  {
    if steps != [] {
      var n := |steps| - 1;
      DisaggregatedRunsExclusive(steps[..n], hasValueWorker);
      assert steps == steps[..n] + [steps[n]];
      DisaggregatedStep(RunDisaggregated(steps[..n], hasValueWorker), steps[n], hasValueWorker);
    }
  }

  lemma DisaggregatedStep(run: Run, step: Step, hasValueWorker: bool)
    requires TrainersExclusive(run) && (After(run).value ==> hasValueWorker) &&
            (step.UsesValueWorker() ==> hasValueWorker)
    ensures var next := match step
        case Switch(stage) => SwitchDisaggregated(run, stage, hasValueWorker)
        case PreparePpo => PreparePpoMoves(run)
        case TrainPpo => TrainPpoMoves(run);
      && TrainersExclusive(next) && (After(next).value ==> hasValueWorker)
      && (After(next).weights <==> After(run).weights || step == Switch(Rollout))
      && (After(next).kvCache <==> After(run).kvCache || step == Switch(Rollout))
  {
    hide TrainersExclusive, After;
    OneMoreExclusive(run, ValueToCpu);
    OneMoreExclusive(ValueOff(run, hasValueWorker), ActorToGpu);
    OneMoreExclusive(Then(run, ValueToCpu), ActorToGpu);
    OneMoreExclusive(run, ActorToCpu);
    OneMoreExclusive(Then(run, ActorToCpu), ValueToGpu);
    OneMoreExclusive(run, ResumeWeights);
    OneMoreExclusive(Then(run, ResumeWeights), ResumeKvCache);
    OneMoreExclusive(Then(Then(run, ResumeWeights), ResumeKvCache), ResumeGeneration);
  }

  /** The choices an online training run makes at each step. */
  datatype Iteration = Iteration(freshRounds: nat, shouldTrainActor: bool)

  /** How an online training run is set up, and which of the two placements it has. */
  datatype Setup = Setup(colocated: bool, ppo: bool, hasValueWorker: bool) {
    function Enter(run: Run, stage: Stage): Run {
      if colocated then SwitchTo(run, stage, hasValueWorker) else SwitchDisaggregated(run, stage, hasValueWorker)
    }

    function Start(run: Run, evalOnStart: bool): Run {
      var synced := Enter(Enter(run, Train), WeightSync);
      if evalOnStart then Enter(synced, Rollout) else synced
    }

    function Rollouts(run: Run, rounds: nat): Run {
      if rounds == 0 then run else Enter(Rollouts(run, rounds - 1), Rollout)
    }

    /** Value training and the actor's share of it, or actor training alone. */
    function Update(run: Run, shouldTrainActor: bool): Run {
      if !ppo then Enter(run, Train)
      else
        var prepared := PreparePpoMoves(Enter(run, ValueTrain));
        if shouldTrainActor then TrainPpoMoves(prepared) else Then(prepared, ValueToCpu)
    }

    function Iterate(run: Run, iteration: Iteration): Run {
      var updated := Update(Rollouts(run, iteration.freshRounds), iteration.shouldTrainActor);
      Enter(if !ppo || iteration.shouldTrainActor then Enter(updated, WeightSync) else updated, Rollout)
    }

    function Iterations(run: Run, iterations: seq<Iteration>): Run {
      if iterations == [] then run
      else Iterate(Iterations(run, iterations[..|iterations| - 1]), iterations[|iterations| - 1])
    }
  }

  /**
   A whole online training run, for any number of updates, rounds per batch, evaluations and value-only updates:
   every placement it ever passes through is safe, and every batch is trained with its model on the GPU.
   */
  method RunOnlineRlTrain(manager: ColocatedStageManager, ppo: bool, evalOnStart: bool, iterations: seq<Iteration>)
    requires manager.Valid() && (ppo ==> manager.valueWorker != null)
    modifies manager`operations, manager.Workers()
    ensures manager.Valid()
    ensures var setup := Setup(true, ppo, manager.valueWorker != null);
      manager.operations == setup.Iterations(setup.Start(old(manager.operations), evalOnStart), iterations)
  {
    hide AlwaysSafe, After, SwitchTo;
    ghost var setup := Setup(true, ppo, manager.valueWorker != null);
    manager.SwitchToTrain();
    manager.SwitchToWeightSync();
    assert manager.Now().actor && manager.Now().weights;
    if evalOnStart {
      manager.SwitchToRollout();
    }
    ghost var started := manager.operations;
    for i := 0 to |iterations|
      invariant manager.Valid() && manager.operations == setup.Iterations(started, iterations[..i])
    {
      ghost var before := manager.operations;
      assert iterations[..i + 1][..i] == iterations[..i];
      // Rollout rounds until a batch is ready; each, and each evaluation after it, first switches to rollout.
      for r := 0 to iterations[i].freshRounds
        invariant manager.Valid() && manager.operations == setup.Rollouts(before, r)
      {
        manager.SwitchToRollout();
      }
      if ppo {
        manager.SwitchToValueTrain();
        manager.PreparePpoTrainingSamples();
      } else {
        manager.SwitchToTrain();
      }
      var actorTrained := manager.TrainOnlineSampleDataset(ppo, iterations[i].shouldTrainActor);
      if actorTrained {
        manager.SwitchToWeightSync();
        assert manager.Now().actor && manager.Now().weights;
      }
      manager.SwitchToRollout();
    }
    assert iterations[..|iterations|] == iterations;
  }

  /**
   The same run on separate GPUs for engine and trainers: no placement it passes through has both trainers resident,
   every batch is trained with its model on the GPU, and after the first update the engine stays fully resident, so
   every later weight sync finds its weights there.
   */
  method RunOnlineRlTrainDisaggregated(manager: DisaggregatedStageManager, ppo: bool, evalOnStart: bool,
          iterations: seq<Iteration>)
    requires manager.Valid() && (ppo ==> manager.valueWorker != null)
    modifies manager`operations, manager.Workers()
    ensures manager.Valid()
    ensures iterations != [] || evalOnStart ==> manager.Now().weights && manager.Now().kvCache && !manager.Now().paused
    ensures var setup := Setup(false, ppo, manager.valueWorker != null);
      manager.operations == setup.Iterations(setup.Start(old(manager.operations), evalOnStart), iterations)
  {
    hide TrainersExclusive, After, SwitchDisaggregated;
    ghost var setup := Setup(false, ppo, manager.valueWorker != null);
    manager.ActorTakesOver(Train);
    manager.ActorTakesOver(WeightSync);
    if evalOnStart {
      manager.SwitchToRollout();
    }
    ghost var started := manager.operations;
    for i := 0 to |iterations|
      invariant manager.Valid() && manager.operations == setup.Iterations(started, iterations[..i])
      invariant i > 0 || evalOnStart ==> manager.Now().weights && manager.Now().kvCache && !manager.Now().paused
    {
      ghost var before := manager.operations;
      assert iterations[..i + 1][..i] == iterations[..i];
      for r := 0 to iterations[i].freshRounds
        invariant manager.Valid() && manager.operations == setup.Rollouts(before, r)
        invariant i > 0 || r > 0 || evalOnStart ==>
                    manager.Now().weights && manager.Now().kvCache && !manager.Now().paused
      {
        manager.SwitchToRollout();
      }
      if ppo {
        manager.SwitchToValueTrain();
        manager.PreparePpoTrainingSamples();
      } else {
        manager.ActorTakesOver(Train);
      }
      var actorTrained := manager.TrainOnlineSampleDataset(ppo, iterations[i].shouldTrainActor);
      if actorTrained {
        assert manager.Now().actor && !manager.Now().value;
        manager.ActorTakesOver(WeightSync);
        assert i > 0 || iterations[i].freshRounds > 0 || evalOnStart ==> manager.Now().weights;
      }
      manager.SwitchToRollout();
    }
    assert iterations[..|iterations|] == iterations;
  }
}
