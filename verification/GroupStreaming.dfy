/** The scheduler of rollout groups and its per-group buffers (axrl/controller/base_controller.py:43-66, 246-315). */
module GroupStreaming {
  import opened Basics
  import opened GroupStreamModel
  import opened Labels

  type Slot<+R> = Option<R>

  datatype Conversation = Conversation(conversationId: string, groundTruth: string)

  /** One rollout: what a conversation yields under a session id. */
  type Rollout<!R> = (Conversation, string) -> R

  function Filled<R>(results: seq<Slot<R>>): nat {
    if results == [] then 0 else (if results[0].Some? then 1 else 0) + Filled(results[1..])
  }

  lemma {:induction false} FillSlot<R>(results: seq<Slot<R>>, i: nat, result: R)
    requires i < |results| && results[i].None?
    ensures Filled(results[i := Some(result)]) == Filled(results) + 1
  {
    if i > 0 {
      assert results[i := Some(result)][1..] == results[1..][i - 1 := Some(result)];
      FillSlot(results[1..], i - 1, result);
    }
  }

  lemma {:induction false} AllFilled<R>(results: seq<Slot<R>>)
    ensures Filled(results) <= |results|
    ensures Filled(results) == |results| <==> forall i :: 0 <= i < |results| ==> results[i].Some?
  {
    if results != [] {
      AllFilled(results[1..]);
      assert forall i :: 0 <= i < |results| - 1 ==> results[1..][i] == results[i + 1];
      if forall i :: 0 <= i < |results| - 1 ==> results[1..][i].Some? {
        assert forall i :: 0 < i < |results| ==> results[i] == results[1..][i - 1];
      }
    }
  }

  lemma {:induction false} NoneFilled<R>(n: nat)
    ensures Filled<R>(seq(n, _ => None)) == 0
  {
    if n > 0 {
      NoneFilled<R>(n - 1);
      assert seq<Slot<R>>(n, _ => None)[1..] == seq(n - 1, _ => None);
    }
  }

  /** Results of one group as they arrive. */
  class PartialGroupState<R> {
    const groupSize: nat
    var results: seq<Slot<R>>
    var finishedCount: nat

    ghost predicate Valid()
      reads this
    {
      |results| == groupSize && finishedCount == Filled(results)
    }

    constructor (groupSize: nat)
      ensures Valid() && this.groupSize == groupSize && results == seq(groupSize, _ => None)
    {
      this.groupSize := groupSize;
      results := seq(groupSize, _ => None);
      finishedCount := 0;
      new;
      NoneFilled<R>(groupSize);
    }

    method SetResult(itemIndex: nat, result: R)
      requires Valid() && itemIndex < groupSize && results[itemIndex].None?
      modifies this`results, this`finishedCount
      ensures Valid() && results == old(results)[itemIndex := Some(result)]
    {
      FillSlot(results, itemIndex, result);
      results := results[itemIndex := Some(result)];
      finishedCount := finishedCount + 1;
    }

    /** Counting arrivals is enough: the count reaches the size exactly when no slot is empty. */
    method IsComplete() returns (complete: bool)
      requires Valid()
      ensures complete <==> finishedCount == groupSize
      ensures complete <==> forall i :: 0 <= i < groupSize ==> results[i].Some?
    {
      AllFilled(results);
      complete := finishedCount == groupSize;
    }

    /** No slot of a complete group is missing, so every result is returned, in item order. */
    method GetResults() returns (completed: seq<R>)
      requires Valid() && finishedCount == groupSize
      ensures |completed| == groupSize && forall i :: 0 <= i < groupSize ==> results[i] == Some(completed[i])
    {
      AllFilled(results);
      completed := [];
      for itemIndex := 0 to |results|
        invariant |completed| == itemIndex && forall i :: 0 <= i < itemIndex ==> results[i] == Some(completed[i])
      {
        completed := completed + [results[itemIndex].value];
      }
    }
  }

  /** Session of item `i` of group `g` when the counter stood at `counter` before the call. */
  function Session(groups: seq<seq<Conversation>>, counter: nat, g: nat, i: nat): string
    requires g < |groups| && i < |groups[g]|
  {
    SessionId(groups[g][i].conversationId, counter + FirstTask(groups, g) + i + 1, g, i)
  }

  /** Distinct requests of one call get distinct sessions, whatever the conversation ids. */
  lemma SessionsDistinct(groups: seq<seq<Conversation>>, counter: nat, g: nat, i: nat, g': nat, i': nat)
    requires g < |groups| && i < |groups[g]| && g' < |groups| && i' < |groups[g']|
    requires Session(groups, counter, g, i) == Session(groups, counter, g', i')
    ensures g == g' && i == i'
  {
    SessionIdInjective(groups[g][i].conversationId, counter + FirstTask(groups, g) + i + 1, g, i,
                       groups[g'][i'].conversationId, counter + FirstTask(groups, g') + i' + 1, g', i');
  }

  /** A later call, which starts from the counter the earlier one left, reuses none of its sessions. */
  lemma SessionsDistinctAcrossCalls(earlier: seq<seq<Conversation>>, later: seq<seq<Conversation>>, counter: nat,
          counter': nat, g: nat, i: nat, g': nat, i': nat)
    requires g < |earlier| && i < |earlier[g]| && g' < |later| && i' < |later[g']|
    requires counter' >= counter + |Pending(earlier)|
    ensures Session(earlier, counter, g, i) != Session(later, counter', g', i')
  {
    PendingAt(earlier, g, i);
    if Session(earlier, counter, g, i) == Session(later, counter', g', i') {
      SessionIdInjective(earlier[g][i].conversationId, counter + FirstTask(earlier, g) + i + 1, g, i,
                         later[g'][i'].conversationId, counter' + FirstTask(later, g') + i' + 1, g', i');
    }
  }

  function Result<R>(groups: seq<seq<Conversation>>, counter: nat, rollout: Rollout<R>, g: nat, i: nat): R
    requires g < |groups| && i < |groups[g]|
  {
    rollout(groups[g][i], Session(groups, counter, g, i))
  }

  /** What the caller receives for group `g`: one result per item, in item order. */
  function GroupResults<R>(groups: seq<seq<Conversation>>, counter: nat, rollout: Rollout<R>, g: nat): seq<R>
    requires g < |groups|
  {
    seq(|groups[g]|, i requires 0 <= i < |groups[g]| => Result(groups, counter, rollout, g, i))
  }

  predicate Below(order: seq<nat>, n: nat) {
    forall j :: 0 <= j < |order| ==> order[j] < n
  }

  /** Pairs of group index and results, for groups in a given order. */
  function Delivery<R>(groups: seq<seq<Conversation>>, counter: nat, rollout: Rollout<R>, order: seq<nat>)
    : seq<(nat, seq<R>)>
    requires Below(order, |groups|)
  {
    if order == [] then []
    else
      var n := |order| - 1;
      Delivery(groups, counter, rollout, order[..n]) + [(order[n], GroupResults(groups, counter, rollout, order[n]))]
  }

  lemma {:induction false} DeliveryConcat<R>(groups: seq<seq<Conversation>>, counter: nat, rollout: Rollout<R>,
          a: seq<nat>, b: seq<nat>)
    requires Below(a, |groups|) && Below(b, |groups|)
    ensures Delivery(groups, counter, rollout, a + b) ==
            Delivery(groups, counter, rollout, a) + Delivery(groups, counter, rollout, b)
  {
    hide GroupResults;
    if b == [] {
      assert a + b == a;
    } else {
      var n, whole := |b| - 1, a + b;
      DeliveryConcat(groups, counter, rollout, a, b[..n]);
      assert whole[..|whole| - 1] == a + b[..n] && whole[|whole| - 1] == b[n];
    }
  }

  /** Entry `j` of what is delivered is group `order[j]` with its results. */
  lemma {:induction false} DeliveryAt<R>(groups: seq<seq<Conversation>>, counter: nat, rollout: Rollout<R>,
          order: seq<nat>, j: nat)
    requires Below(order, |groups|)
    requires j < |order|
    ensures |Delivery(groups, counter, rollout, order)| == |order|
    ensures Delivery(groups, counter, rollout, order)[j] == (order[j], GroupResults(groups, counter, rollout, order[j]))
  {
    DeliveryLength(groups, counter, rollout, order[..|order| - 1]);
    if j < |order| - 1 {
      DeliveryAt(groups, counter, rollout, order[..|order| - 1], j);
    }
  }

  /**
   Every complete run, whatever the order of completions, delivers each non-empty group exactly once, with its
   results in item order, and no empty group at all.
   */
  lemma EveryGroupDeliveredOnce<R>(groups: seq<seq<Conversation>>, counter: nat, rollout: Rollout<R>, log: seq<Event>,
          maxConcurrent: nat, g: nat)
    requires LegalRun(log, |Pending(groups)|, maxConcurrent) && Complete(log, |Pending(groups)|)
    requires g < |groups| && Below(Emitted(Pending(groups), log), |groups|)
    ensures var delivered := Delivery(groups, counter, rollout, Emitted(Pending(groups), log));
      && (groups[g] != [] <==>
        exists j :: 0 <= j < |delivered| && delivered[j] == (g, GroupResults(groups, counter, rollout, g)))
      && (forall j, k :: 0 <= j < k < |delivered| ==> delivered[j].0 != delivered[k].0)
  {
    var pending := Pending(groups);
    var emitted := Emitted(pending, log);
    var delivered := Delivery(groups, counter, rollout, emitted);
    EmittedExactlyWhenDone(pending, log, maxConcurrent);
    CompleteRunYieldsAll(pending, log, maxConcurrent);
    DeliveryLength(groups, counter, rollout, emitted);
    forall j | 0 <= j < |emitted|
      ensures delivered[j] == (emitted[j], GroupResults(groups, counter, rollout, emitted[j]))
    {
      DeliveryAt(groups, counter, rollout, emitted, j);
    }
    HasRequestIff(groups, g);
    if groups[g] != [] {
      assert g in emitted;
    }
  }

  lemma HasRequestIff<C>(groups: seq<seq<C>>, g: nat)
    requires g < |groups|
    ensures HasRequest(Pending(groups), g) <==> groups[g] != []
  {
    if groups[g] != [] {
      PendingAt(groups, g, 0);
    }
    forall k | 0 <= k < |Pending(groups)| ensures Pending(groups)[k].groupIndex == g ==> groups[g] != [] {
      PendingOnly(groups, k);
    }
  }

  /** A running task: its request, and the session it runs under. */
  datatype Task = Task(request: Request, conversation: Conversation, session: string)

  function TaskAt(groups: seq<seq<Conversation>>, counter: nat, k: nat): Task
    requires k < |Pending(groups)|
  {
    PendingOnly(groups, k);
    var request := Pending(groups)[k];
    Task(request, groups[request.groupIndex][request.itemIndex],
        Session(groups, counter, request.groupIndex, request.itemIndex))
  }

  /** The running tasks are those of the run so far, each for its own request. */
  ghost predicate Running(groups: seq<seq<Conversation>>, counter: nat, maxConcurrent: nat, log: seq<Event>,
          activeTasks: map<nat, Task>) {
    && LegalRun(log, |Pending(groups)|, maxConcurrent)
    && activeTasks.Keys == Active(log)
    && (forall k: nat :: k in activeTasks ==> k < |Pending(groups)| && activeTasks[k] == TaskAt(groups, counter, k))
  }

  lemma RunningBounds(groups: seq<seq<Conversation>>, counter: nat, maxConcurrent: nat, log: seq<Event>,
          activeTasks: map<nat, Task>)
    requires Running(groups, counter, maxConcurrent, log, activeTasks)
    ensures Next(log) <= |Pending(groups)| && |activeTasks| <= Next(log) && |activeTasks| <= maxConcurrent
    ensures Next(log) !in activeTasks
  {
    RunSafe(log, |Pending(groups)|, maxConcurrent);
    assert |activeTasks| == |activeTasks.Keys|;
    SubsetSize(activeTasks.Keys, Range(Next(log)));
  }

  lemma NoRoomLeft(groups: seq<seq<Conversation>>, counter: nat, maxConcurrent: nat, log: seq<Event>,
          activeTasks: map<nat, Task>)
    requires Running(groups, counter, maxConcurrent, log, activeTasks)
    requires Next(log) >= |Pending(groups)| || |activeTasks| >= maxConcurrent
    ensures FilledUp(log, |Pending(groups)|, maxConcurrent)
  {
    assert |activeTasks| == |activeTasks.Keys|;
  }

  lemma StartKeepsRunning(groups: seq<seq<Conversation>>, counter: nat, maxConcurrent: nat, log: seq<Event>,
          activeTasks: map<nat, Task>)
    requires Running(groups, counter, maxConcurrent, log, activeTasks)
    requires Next(log) < |Pending(groups)| && |activeTasks| < maxConcurrent
    ensures Running(groups, counter, maxConcurrent, log + [Started(Next(log))],
                    activeTasks[Next(log) := TaskAt(groups, counter, Next(log))])
  {
    hide Pending, TaskAt, LegalRun, Next, Active, Emitted, EmittedBy;
    Extend(Pending(groups), log, Started(Next(log)), |Pending(groups)|, maxConcurrent);
    assert |activeTasks| == |activeTasks.Keys|;
  }

  lemma FinishKeepsRunning(groups: seq<seq<Conversation>>, counter: nat, maxConcurrent: nat, log: seq<Event>,
          activeTasks: map<nat, Task>, k: nat)
    requires Running(groups, counter, maxConcurrent, log, activeTasks) && k in activeTasks
    ensures Running(groups, counter, maxConcurrent, log + [Finished(k)], activeTasks - {k})
  {
    Extend(Pending(groups), log, Finished(k), |Pending(groups)|, maxConcurrent);
  }

  /** What has been yielded so far is what the run so far emits. */
  ghost predicate Yielded<R>(groups: seq<seq<Conversation>>, counter: nat, rollout: Rollout<R>, log: seq<Event>,
          delivered: seq<(nat, seq<R>)>)
  {
    && Below(Emitted(Pending(groups), log), |groups|)
    && delivered == Delivery(groups, counter, rollout, Emitted(Pending(groups), log))
  }

  lemma YieldMore<R>(groups: seq<seq<Conversation>>, counter: nat, rollout: Rollout<R>, log: seq<Event>, task: nat,
          delivered: seq<(nat, seq<R>)>)
    requires Yielded(groups, counter, rollout, log, delivered)
    ensures var more := EmittedBy(Pending(groups), log, Finished(task));
      && Below(more, |groups|)
      && Yielded(groups, counter, rollout, log + [Finished(task)], delivered + Delivery(groups, counter, rollout, more))
      && Next(log + [Finished(task)]) == Next(log)
  {
    var pending, more := Pending(groups), EmittedBy(Pending(groups), log, Finished(task));
    Extend(pending, log, Finished(task), 0, 0);
    if more != [] {
      PendingOnly(groups, task);
    }
    DeliveryConcat(groups, counter, rollout, Emitted(pending, log), more);
  }

  lemma NothingStarted<R>(groups: seq<seq<Conversation>>, counter: nat, maxConcurrent: nat, rollout: Rollout<R>)
    ensures Running(groups, counter, maxConcurrent, [], map[]) && Next([]) == 0
    ensures Yielded(groups, counter, rollout, [], [])
  {
  }

  /** The loop ends because every group is out, or because nothing is running and nothing can start. */
  lemma StreamEnds<R>(groups: seq<seq<Conversation>>, counter: nat, maxConcurrent: nat, rollout: Rollout<R>,
          log: seq<Event>, activeTasks: map<nat, Task>, delivered: seq<(nat, seq<R>)>)
    requires Running(groups, counter, maxConcurrent, log, activeTasks) &&
            Yielded(groups, counter, rollout, log, delivered)
    requires |delivered| >= |groups| || (activeTasks == map[] && (Next(log) < |Pending(groups)| ==> maxConcurrent == 0))
    ensures LegalRun(log, |Pending(groups)|, maxConcurrent)
    ensures maxConcurrent > 0 ==> Complete(log, |Pending(groups)|)
    ensures Below(Emitted(Pending(groups), log), |groups|)
    ensures delivered == Delivery(groups, counter, rollout, Emitted(Pending(groups), log))
  {
    RunningBounds(groups, counter, maxConcurrent, log, activeTasks);
    if |delivered| >= |groups| {
      DeliveryLength(groups, counter, rollout, Emitted(Pending(groups), log));
      AllYieldedMeansComplete(groups, log, maxConcurrent);
    }
  }

  lemma {:induction false} DeliveryLength<R>(groups: seq<seq<Conversation>>, counter: nat, rollout: Rollout<R>,
          order: seq<nat>)
    requires Below(order, |groups|)
    ensures |Delivery(groups, counter, rollout, order)| == |order|
  {
    if order != [] {
      DeliveryLength(groups, counter, rollout, order[..|order| - 1]);
    }
  }

  /** A group has a buffer until it is yielded, and the buffer holds exactly the results that are in. */
  ghost predicate Buffered<R>(groups: seq<seq<Conversation>>, counter: nat, rollout: Rollout<R>, log: seq<Event>,
          contents: map<nat, seq<Slot<R>>>)
  {
    && (forall g: nat :: g in contents <==> g < |groups| && g !in Emitted(Pending(groups), log))
    && (forall g: nat :: g in contents ==> contents[g] == Slots(groups, counter, rollout, log, g))
  }

  ghost function Slots<R>(groups: seq<seq<Conversation>>, counter: nat, rollout: Rollout<R>, log: seq<Event>, g: nat)
          : seq<Slot<R>>
    requires g < |groups|
  {
    seq(|groups[g]|, i requires 0 <= i < |groups[g]| =>
      if FirstTask(groups, g) + i in Done(log) then Some(Result(groups, counter, rollout, g, i)) else None)
  }

  /** Filing one result changes one slot of one buffer. */
  lemma FileResult<R>(groups: seq<seq<Conversation>>, counter: nat, rollout: Rollout<R>, log: seq<Event>, task: nat,
          g: nat)
    requires task < |Pending(groups)| && g < |groups| && task !in Done(log)
    ensures var t := TaskAt(groups, counter, task);
      var slots := Slots(groups, counter, rollout, log, g);
      if g == t.request.groupIndex then
        && t.request.itemIndex < |slots| && slots[t.request.itemIndex].None?
        && Slots(groups, counter, rollout, log + [Finished(task)], g)
             == slots[t.request.itemIndex := Some(rollout(t.conversation, t.session))]
      else Slots(groups, counter, rollout, log + [Finished(task)], g) == slots
  {
    hide Pending, Session, LegalRun, Next, Active, Done, Emitted, EmittedBy;
    Extend(Pending(groups), log, Finished(task), 0, 0);
    PendingOnly(groups, task);
    var t := TaskAt(groups, counter, task);
    var slots := Slots(groups, counter, rollout, log, g);
    var filed := Slots(groups, counter, rollout, log + [Finished(task)], g);
    forall i | 0 <= i < |groups[g]|
      ensures filed[i] == if Request(g, i) == t.request then Some(rollout(t.conversation, t.session)) else slots[i]
    {
      PendingAt(groups, g, i);
    }
    if g == t.request.groupIndex {
      assert filed == slots[t.request.itemIndex := Some(rollout(t.conversation, t.session))];
    } else {
      assert filed == slots;
    }
  }

  /** A buffer is full exactly when the group's requests are all in. */
  lemma FullMeansDone<R>(groups: seq<seq<Conversation>>, counter: nat, rollout: Rollout<R>, log: seq<Event>, g: nat)
    requires g < |groups|
    ensures var slots := Slots(groups, counter, rollout, log, g);
      (forall i :: 0 <= i < |slots| ==> slots[i].Some?) <==> GroupDone(Pending(groups), g, Done(log))
  {
    var slots, pending := Slots(groups, counter, rollout, log, g), Pending(groups);
    if forall i :: 0 <= i < |slots| ==> slots[i].Some? {
      forall k | 0 <= k < |pending| && pending[k].groupIndex == g ensures k in Done(log) {
        PendingOnly(groups, k);
        assert slots[pending[k].itemIndex].Some?;
      }
    }
    if GroupDone(pending, g, Done(log)) {
      forall i | 0 <= i < |slots| ensures slots[i].Some? {
        PendingAt(groups, g, i);
      }
    }
  }

  /** The slot a finished task fills exists and is empty. */
  lemma CollectFills<R>(groups: seq<seq<Conversation>>, counter: nat, maxConcurrent: nat, rollout: Rollout<R>,
          log: seq<Event>, task: nat, activeTasks: map<nat, Task>, contents: map<nat, seq<Slot<R>>>)
    requires Running(groups, counter, maxConcurrent, log, activeTasks) && task in activeTasks
    requires Buffered(groups, counter, rollout, log, contents)
    ensures task < |Pending(groups)| && task !in Done(log) && activeTasks[task] == TaskAt(groups, counter, task)
    ensures var t := activeTasks[task];
      var (g, i) := (t.request.groupIndex, t.request.itemIndex);
      && g < |groups| && g in contents && i < |contents[g]| == |groups[g]| && contents[g][i].None?
      && contents[g][i := Some(rollout(t.conversation, t.session))]
           == Slots(groups, counter, rollout, log + [Finished(task)], g)
  {
    hide LegalRun, Next, Active, Done, Session, Pending, Emitted;
    var pending := Pending(groups);
    PendingOnly(groups, task);
    RunSafe(log, |pending|, maxConcurrent);
    EmittedExactlyWhenDone(pending, log, maxConcurrent);
    assert !GroupDone(pending, pending[task].groupIndex, Done(log));
    FileResult(groups, counter, rollout, log, task, pending[task].groupIndex);
  }

  /** Its group is emitted exactly if that fills the buffer. */
  lemma CollectEmits<R>(groups: seq<seq<Conversation>>, counter: nat, rollout: Rollout<R>, log: seq<Event>, task: nat,
          g: nat, slots: seq<Slot<R>>)
    requires task < |Pending(groups)| && g == Pending(groups)[task].groupIndex && g < |groups|
    requires slots == Slots(groups, counter, rollout, log + [Finished(task)], g)
    ensures EmittedBy(Pending(groups), log, Finished(task)) ==
            (if forall j :: 0 <= j < |slots| ==> slots[j].Some? then [g] else [])
  {
    Extend(Pending(groups), log, Finished(task), 0, 0);
    FullMeansDone(groups, counter, rollout, log + [Finished(task)], g);
  }

  lemma CollectKeepsBuffered<R>(groups: seq<seq<Conversation>>, counter: nat, rollout: Rollout<R>, log: seq<Event>,
          task: nat, contents: map<nat, seq<Slot<R>>>, contents': map<nat, seq<Slot<R>>>, g: nat)
    requires Buffered(groups, counter, rollout, log, contents)
    requires task < |Pending(groups)| && task !in Done(log) && g == Pending(groups)[task].groupIndex && g < |groups| &&
            g in contents
    requires contents' ==
      if EmittedBy(Pending(groups), log, Finished(task)) == []
      then contents[g := Slots(groups, counter, rollout, log + [Finished(task)], g)]
      else contents - {g}
    ensures Buffered(groups, counter, rollout, log + [Finished(task)], contents')
  {
    hide LegalRun, Next, Active, Done, Slots, Session, Pending, TaskAt, Emitted;
    Extend(Pending(groups), log, Finished(task), 0, 0);
    forall h: nat | h < |groups| && h != g
      ensures Slots(groups, counter, rollout, log + [Finished(task)], h) == Slots(groups, counter, rollout, log, h)
    {
      FileResult(groups, counter, rollout, log, task, h);
      assert TaskAt(groups, counter, task).request == Pending(groups)[task] by { TaskRequest(groups, counter, task); }
    }
  }

  lemma NothingBuffered<R>(groups: seq<seq<Conversation>>, counter: nat, rollout: Rollout<R>,
          contents: map<nat, seq<Slot<R>>>)
    requires forall g: nat :: g in contents <==> g < |groups|
    requires forall g: nat :: g in contents ==> contents[g] == seq(|groups[g]|, _ => None)
    ensures Buffered(groups, counter, rollout, [], contents)
  {
    hide Session, Pending;
    assert forall g: nat :: g < |groups| ==> Slots(groups, counter, rollout, [], g) == seq(|groups[g]|, _ => None);
  }

  /** Starting a task changes no buffer. */
  lemma StartKeepsBuffered<R>(groups: seq<seq<Conversation>>, counter: nat, rollout: Rollout<R>, log: seq<Event>,
          log': seq<Event>, contents: map<nat, seq<Slot<R>>>, delivered: seq<(nat, seq<R>)>)
    requires Done(log') == Done(log) && Emitted(Pending(groups), log') == Emitted(Pending(groups), log)
    ensures Buffered(groups, counter, rollout, log, contents) ==> Buffered(groups, counter, rollout, log', contents)
    ensures Yielded(groups, counter, rollout, log, delivered) ==> Yielded(groups, counter, rollout, log', delivered)
  {
    hide Session, Pending, Done, Emitted, Result;
    assert forall g: nat :: g < |groups| ==>
        Slots(groups, counter, rollout, log', g) == Slots(groups, counter, rollout, log, g);
  }

  lemma TaskRequest(groups: seq<seq<Conversation>>, counter: nat, k: nat)
    requires k < |Pending(groups)|
    ensures TaskAt(groups, counter, k).request == Pending(groups)[k]
  {
  }

  lemma FullSlots<R>(groups: seq<seq<Conversation>>, counter: nat, rollout: Rollout<R>, log: seq<Event>, g: nat,
          results: seq<R>)
    requires g < |groups| && |results| == |groups[g]|
    requires forall i :: 0 <= i < |results| ==> Slots(groups, counter, rollout, log, g)[i] == Some(results[i])
    ensures results == GroupResults(groups, counter, rollout, g)
  {
  }

  class BaseController<R> {
    var rolloutSessionCounter: nat

    constructor ()
      ensures rolloutSessionCounter == 0
    {
      rolloutSessionCounter := 0;
    }

    method AssignRolloutSessionId(conversation: Conversation, request: Request) returns (session: string)
      requires conversation.conversationId != ""
      modifies this`rolloutSessionCounter
      ensures rolloutSessionCounter == old(rolloutSessionCounter) + 1
      ensures session == SessionId(conversation.conversationId, rolloutSessionCounter, request.groupIndex,
              request.itemIndex)
    {
      rolloutSessionCounter := rolloutSessionCounter + 1;
      session := SessionId(conversation.conversationId, rolloutSessionCounter, request.groupIndex, request.itemIndex);
    }

    static ghost function Contents(partialGroups: map<nat, PartialGroupState<R>>): map<nat, seq<Slot<R>>>
      reads partialGroups.Values
    {
      map g | g in partialGroups :: partialGroups[g].results
    }

    /** The buffers are separate objects, each of its group's size. */
    static ghost predicate Separate(groups: seq<seq<Conversation>>, partialGroups: map<nat, PartialGroupState<R>>)
      reads partialGroups.Values
    {
      && (forall g: nat, h: nat :: g in partialGroups && h in partialGroups && g != h ==>
        partialGroups[g] != partialGroups[h])
      && (forall g: nat :: g in partialGroups ==>
        g < |groups| && partialGroups[g].Valid() && partialGroups[g].groupSize == |groups[g]|)
    }

    static ghost predicate Buffers(groups: seq<seq<Conversation>>, counter: nat, rollout: Rollout<R>, log: seq<Event>,
            partialGroups: map<nat, PartialGroupState<R>>)
      reads partialGroups.Values
    {
      Separate(groups, partialGroups) && Buffered(groups, counter, rollout, log, Contents(partialGroups))
    }

    /** Starts the next request under a session of its own. */
    method StartTask(groups: seq<seq<Conversation>>, maxConcurrent: nat, ghost counter: nat, ghost log: seq<Event>,
            next: nat, activeTasks: map<nat, Task>) returns (active: map<nat, Task>)
      requires forall g, i :: 0 <= g < |groups| && 0 <= i < |groups[g]| ==> groups[g][i].conversationId != ""
      requires Running(groups, counter, maxConcurrent, log, activeTasks)
      requires Eager(log, |Pending(groups)|, maxConcurrent)
      requires next == Next(log) < |Pending(groups)| && |activeTasks| < maxConcurrent
      requires rolloutSessionCounter == counter + next
      modifies this`rolloutSessionCounter
      ensures Running(groups, counter, maxConcurrent, log + [Started(next)], active)
      ensures Eager(log + [Started(next)], |Pending(groups)|, maxConcurrent)
      ensures Next(log + [Started(next)]) == next + 1 && |active| == |activeTasks| + 1
      ensures rolloutSessionCounter == counter + next + 1
      ensures Done(log + [Started(next)]) == Done(log)
      ensures Emitted(Pending(groups), log + [Started(next)]) == Emitted(Pending(groups), log)
    {
      hide Next, Active, Done, Emitted, Pending, Running, Eager;
      var pending := Pending(groups);
      PendingOnly(groups, next);
      RunningBounds(groups, counter, maxConcurrent, log, activeTasks);
      StartKeepsRunning(groups, counter, maxConcurrent, log, activeTasks);
      Extend(pending, log, Started(next), |pending|, maxConcurrent);
      ExtendEager(log, Started(next), |pending|, maxConcurrent);
      var request := pending[next];
      var conversation := groups[request.groupIndex][request.itemIndex];
      var session := AssignRolloutSessionId(conversation, request);
      assert Task(request, conversation, session) == TaskAt(groups, counter, next);
      active := activeTasks[next := Task(request, conversation, session)];
    }

    /** Starts requests, in order, while there is room. */
    method ScheduleWhileRoom(groups: seq<seq<Conversation>>, maxConcurrent: nat, ghost counter: nat,
            ghost log: seq<Event>, nextRequestIndex: nat, activeTasks: map<nat, Task>)
      returns (next: nat, active: map<nat, Task>, ghost log': seq<Event>)
      requires forall g, i :: 0 <= g < |groups| && 0 <= i < |groups[g]| ==> groups[g][i].conversationId != ""
      requires Running(groups, counter, maxConcurrent, log, activeTasks)
      requires nextRequestIndex == Next(log) && rolloutSessionCounter == counter + nextRequestIndex
      requires Eager(log, |Pending(groups)|, maxConcurrent)
      modifies this`rolloutSessionCounter
      ensures Running(groups, counter, maxConcurrent, log', active)
      ensures Eager(log', |Pending(groups)|, maxConcurrent) && FilledUp(log', |Pending(groups)|, maxConcurrent)
      ensures next == Next(log') && rolloutSessionCounter == counter + next
      ensures next < |Pending(groups)| ==> |active| >= maxConcurrent
      ensures next - |active| == nextRequestIndex - |activeTasks|
      ensures Done(log') == Done(log) && Emitted(Pending(groups), log') == Emitted(Pending(groups), log)
    {
      hide Next, Active, Done, Emitted, Pending, Running, Eager, FilledUp;
      var pending := Pending(groups);
      next, active, log' := nextRequestIndex, activeTasks, log;
      RunningBounds(groups, counter, maxConcurrent, log, activeTasks);
      while next < |pending| && |active| < maxConcurrent
        invariant Running(groups, counter, maxConcurrent, log', active)
        invariant next == Next(log') <= |pending| && rolloutSessionCounter == counter + next
        invariant next - |active| == nextRequestIndex - |activeTasks|
        invariant Eager(log', |pending|, maxConcurrent)
        invariant Done(log') == Done(log) && Emitted(pending, log') == Emitted(pending, log)
      {
        active := StartTask(groups, maxConcurrent, counter, log', next, active);
        log' := log' + [Started(next)];
        next := next + 1;
      }
      NoRoomLeft(groups, counter, maxConcurrent, log', active);
    }

    /** Files one result in its group's buffer; the other buffers are separate objects. */
    method StoreResult(groups: seq<seq<Conversation>>, partialGroups: map<nat, PartialGroupState<R>>, g: nat,
            itemIndex: nat, result: R)
      requires Separate(groups, partialGroups) && g in partialGroups
      requires itemIndex < |partialGroups[g].results| && partialGroups[g].results[itemIndex].None?
      modifies partialGroups[g]
      ensures Separate(groups, partialGroups)
      ensures Contents(partialGroups) == old(Contents(partialGroups))[g := partialGroups[g].results]
      ensures partialGroups[g].results == old(partialGroups[g].results)[itemIndex := Some(result)]
    {
      partialGroups[g].SetResult(itemIndex, result);
    }

    static lemma WithoutGroup(groups: seq<seq<Conversation>>, partialGroups: map<nat, PartialGroupState<R>>, g: nat)
      requires Separate(groups, partialGroups)
      ensures Separate(groups, partialGroups - {g}) && Contents(partialGroups - {g}) == Contents(partialGroups) - {g}
    {
    }

    /**
     Takes one finished task off the running ones, files its result, and yields its group if that was the last one.
     */
    method CollectTask(groups: seq<seq<Conversation>>, maxConcurrent: nat, ghost counter: nat, rollout: Rollout<R>,
            ghost log: seq<Event>, task: nat, activeTasks: map<nat, Task>,
            partialGroups: map<nat, PartialGroupState<R>>)
      returns (active: map<nat, Task>, partials: map<nat, PartialGroupState<R>>, yielded: seq<(nat, seq<R>)>)
      requires Running(groups, counter, maxConcurrent, log, activeTasks) && task in activeTasks
      requires Buffers(groups, counter, rollout, log, partialGroups)
      modifies partialGroups.Values
      ensures active == activeTasks - {task}
      ensures partials.Values <= partialGroups.Values
      ensures Buffers(groups, counter, rollout, log + [Finished(task)], partials)
      ensures Below(EmittedBy(Pending(groups), log, Finished(task)), |groups|)
      ensures yielded == Delivery(groups, counter, rollout, EmittedBy(Pending(groups), log, Finished(task)))
    {
      hide Running, Buffered, Slots, GroupResults, EmittedBy, Pending, TaskAt, Done;
      ghost var contents := Contents(partialGroups);
      CollectFills(groups, counter, maxConcurrent, rollout, log, task, activeTasks, contents);
      TaskRequest(groups, counter, task);
      active := activeTasks - {task};
      var metadata := activeTasks[task].request;
      var result := rollout(activeTasks[task].conversation, activeTasks[task].session);
      var g := metadata.groupIndex;
      StoreResult(groups, partialGroups, g, metadata.itemIndex, result);
      var groupState := partialGroups[g];
      CollectEmits(groups, counter, rollout, log, task, g, groupState.results);
      partials, yielded := partialGroups, [];
      var complete := groupState.IsComplete();
      if complete {
        var completedGroup := groupState.GetResults();
        FullSlots(groups, counter, rollout, log + [Finished(task)], g, completedGroup);
        partials := partialGroups - {g};
        WithoutGroup(groups, partialGroups, g);
        yielded := [(g, completedGroup)];
      }
      CollectKeepsBuffered(groups, counter, rollout, log, task, contents, Contents(partials), g);
    }

    /** Collects the tasks one wait reports, in any order, and appends the groups that become complete. */
    method CollectDone(groups: seq<seq<Conversation>>, maxConcurrent: nat, ghost counter: nat, rollout: Rollout<R>,
            ghost log: seq<Event>, reported: set<nat>, activeTasks: map<nat, Task>,
            partialGroups: map<nat, PartialGroupState<R>>, delivered: seq<(nat, seq<R>)>)
      returns (active: map<nat, Task>, partials: map<nat, PartialGroupState<R>>, delivered': seq<(nat, seq<R>)>,
            ghost log': seq<Event>)
      requires Running(groups, counter, maxConcurrent, log, activeTasks) && reported <= activeTasks.Keys
      requires Eager(log, |Pending(groups)|, maxConcurrent) && FilledUp(log, |Pending(groups)|, maxConcurrent)
      requires Buffers(groups, counter, rollout, log, partialGroups)
      requires Yielded(groups, counter, rollout, log, delivered)
      modifies partialGroups.Values
      ensures Running(groups, counter, maxConcurrent, log', active) && |active| == |activeTasks| - |reported|
      ensures Eager(log', |Pending(groups)|, maxConcurrent) && Next(log') == Next(log)
      ensures Buffers(groups, counter, rollout, log', partials) && partials.Values <= partialGroups.Values
      ensures Yielded(groups, counter, rollout, log', delivered')
    {
      hide Next, Active, Done, Emitted, Pending, Running, Delivery, EmittedBy, Buffered, Yielded, Eager, FilledUp;
      active, partials, delivered', log' := activeTasks, partialGroups, delivered, log;
      var doneTasks := reported;
      while doneTasks != {}
        invariant doneTasks <= active.Keys && |active| - |doneTasks| == |activeTasks| - |reported|
        invariant Running(groups, counter, maxConcurrent, log', active) && Next(log') == Next(log)
        invariant Eager(log', |Pending(groups)|, maxConcurrent) && InWait(log', |Pending(groups)|, maxConcurrent)
        invariant Buffers(groups, counter, rollout, log', partials) && partials.Values <= partialGroups.Values
        invariant Yielded(groups, counter, rollout, log', delivered')
        decreases doneTasks
      {
        var task :| task in doneTasks;
        doneTasks := doneTasks - {task};
        var yielded;
        FinishKeepsRunning(groups, counter, maxConcurrent, log', active, task);
        ExtendEager(log', Finished(task), |Pending(groups)|, maxConcurrent);
        active, partials, yielded :=
            CollectTask(groups, maxConcurrent, counter, rollout, log', task, active, partials);
        YieldMore(groups, counter, rollout, log', task, delivered');
        delivered' := delivered' + yielded;
        log' := log' + [Finished(task)];
      }
    }

    /**
     Streams the groups. Whatever completions the event loop reports, the run is a legal one with at most
     `maxConcurrent` tasks running that fills all room before each wait, and what is yielded is what that run emits,
     each group with its results in item order. With room for at least one task the run is complete.
     */
    method StreamGroupResults(groups: seq<seq<Conversation>>, maxConcurrent: nat, rollout: Rollout<R>)
      returns (delivered: seq<(nat, seq<R>)>, ghost log: seq<Event>)
      requires |groups| > 0
      requires forall g, i :: 0 <= g < |groups| && 0 <= i < |groups[g]| ==> groups[g][i].conversationId != ""
      modifies this`rolloutSessionCounter
      ensures LegalRun(log, |Pending(groups)|, maxConcurrent) && Eager(log, |Pending(groups)|, maxConcurrent)
      ensures maxConcurrent > 0 ==> Complete(log, |Pending(groups)|)
      ensures Below(Emitted(Pending(groups), log), |groups|)
      ensures delivered == Delivery(groups, old(rolloutSessionCounter), rollout, Emitted(Pending(groups), log))
      ensures rolloutSessionCounter == old(rolloutSessionCounter) + Next(log)
    {
      hide Next, Active, Done, Emitted, Pending, Running, Delivery, EmittedBy, Buffered, Yielded, LegalRun, Complete;
      hide Eager, FilledUp;
      ghost var counter := rolloutSessionCounter;
      ghost var pending := Pending(groups);
      var partialGroups := OpenBuffers(groups, counter, rollout);
      var activeTasks: map<nat, Task> := map[];
      var nextRequestIndex, completedGroups := 0, 0;
      delivered, log := [], [];
      NothingStarted(groups, counter, maxConcurrent, rollout);
      NothingWaitedFor(|pending|, maxConcurrent);
      while completedGroups < |groups|
        invariant Running(groups, counter, maxConcurrent, log, activeTasks)
        invariant Eager(log, |pending|, maxConcurrent)
        invariant nextRequestIndex == Next(log) && rolloutSessionCounter == counter + nextRequestIndex
        invariant Buffers(groups, counter, rollout, log, partialGroups) && fresh(partialGroups.Values)
        invariant Yielded(groups, counter, rollout, log, delivered)
        invariant completedGroups == |delivered|
        decreases |pending| - nextRequestIndex + |activeTasks|
      {
        ghost var before := log;
        nextRequestIndex, activeTasks, log :=
            ScheduleWhileRoom(groups, maxConcurrent, counter, log, nextRequestIndex, activeTasks);
        RunningBounds(groups, counter, maxConcurrent, log, activeTasks);
        StartKeepsBuffered(groups, counter, rollout, before, log, Contents(partialGroups), delivered);
        if activeTasks == map[] {
          break;
        }
        // At least one running task completes; which ones is up to the event loop.
        var doneTasks: set<nat> :| doneTasks != {} && doneTasks <= activeTasks.Keys;
        activeTasks, partialGroups, delivered, log := CollectDone(groups, maxConcurrent, counter, rollout, log,
            doneTasks, activeTasks, partialGroups, delivered);
        completedGroups := |delivered|;
      }
      StreamEnds(groups, counter, maxConcurrent, rollout, log, activeTasks, delivered);
    }

    method OpenBuffers(groups: seq<seq<Conversation>>, ghost counter: nat, ghost rollout: Rollout<R>)
      returns (partialGroups: map<nat, PartialGroupState<R>>)
      ensures Buffers(groups, counter, rollout, [], partialGroups) && fresh(partialGroups.Values)
    {
      hide Buffered, Filled;
      partialGroups := map[];
      for g := 0 to |groups|
        invariant Separate(groups, partialGroups) && fresh(partialGroups.Values)
        invariant forall h: nat :: h in partialGroups <==> h < g
        invariant forall h: nat :: h in partialGroups ==> partialGroups[h].results == seq(|groups[h]|, _ => None)
      {
        var state := new PartialGroupState<R>(|groups[g]|);
        ghost var before := partialGroups;
        partialGroups := partialGroups[g := state];
        assert partialGroups.Values <= before.Values + {state};
      }
      NothingBuffered(groups, counter, rollout, Contents(partialGroups));
    }
  }
}
