/**
 The black-box environment driving one proxy session (axis_recipe/blackbox_rl/blackbox_env.py). Between any two of its
 own registry calls other coroutines run: their events are parameters, so the contracts hold for every interleaving.
 */
module BlackBoxEnvClass {
  import opened Basics
  import opened EnvProtocol
  import opened RegistryClass
  import R = RegistryModel
  import T = TraceModel

  datatype IoEvent =
    | ModelInput(call: nat, request: R.RequestId)
    | ModelOutput(call: nat, invalidTool: bool, requestTimeout: bool)

  /** What the adapter renders for one model call. */
  datatype Prompt = Prompt(messages: seq<T.Message>, inputIds: seq<int>)

  /** Everything about a step that the environment does not decide. */
  datatype StepChoices = StepChoices(
    invalidTool: bool,
    normalFinish: bool,
    runtimeDone: bool,
    beforeRespond: seq<R.Event>,
    whileWaiting: seq<seq<R.Event>>,
    beforeClose: seq<R.Event>,
    nextPrompt: Prompt,
    verifierScore: real)

  /** A launch attempt: the launch raises, or a request is awaited and, if it comes, its conversion may raise. */
  datatype Attempt =
    | LaunchFails(during: seq<R.Event>)
    | Launches(whileWaiting: seq<seq<R.Event>>, whileConverting: seq<R.Event>, conversionFails: bool)

  /**
   How a rollout ends: no attempt got a request, an answer failed the trace's assertions, or the environment is done.
   */
  datatype Outcome = NotStarted | AssertionFailed | Finished

  /** Inputs and outputs alternate: input k, output k, for `n` outputs, and one more input when a call is open. */
  predicate Alternates(events: seq<IoEvent>, n: nat, open: bool) {
    && |events| == 2 * n + (if open then 1 else 0)
    && forall i :: 0 <= i < |events| ==> events[i].call == i / 2 && (events[i].ModelInput? <==> i % 2 == 0)
  }

  /** The error response that `fail` sends, by its status. */
  function Failure(status: int): R.Response {
    R.Response(status, "openai_proxy_error")
  }

  /** The log entries of one call: its output and, unless the rollout ended, the next input. */
  function CallEvents(call: nat, invalidTool: bool, requestTimeout: bool, next: Option<R.RequestId>): seq<IoEvent> {
    [ModelOutput(call, invalidTool, requestTimeout)] + if next.Some? then [ModelInput(call + 1, next.value)] else []
  }

  predicate EndsWithOutput(events: seq<IoEvent>) {
    events != [] && events[|events| - 1].ModelOutput?
  }

  /** The log with its last output marked as timed out. */
  function MarkTimeout(events: seq<IoEvent>): seq<IoEvent>
    requires EndsWithOutput(events)
  {
    events[|events| - 1 := events[|events| - 1].(requestTimeout := true)]
  }

  /**
   Every call without an invalid tool call was answered with status 200 and its output, unless its request's deadline
   passed first; and its submitter, once it returned, returned that answer or the timeout.
   */
  ghost predicate CallsServed(s: R.State, events: seq<IoEvent>, outputs: seq<T.GenerationOutput>) {
    && |events| >= 2 * |outputs|
    && forall k :: 0 <= k < |outputs| ==> CallServed(s, events[2 * k], events[2 * k + 1], outputs[k].text)
  }

  ghost predicate CallServed(s: R.State, input: IoEvent, output: IoEvent, text: string) {
    && input.ModelInput? && output.ModelOutput?
    && (!output.invalidTool ==> Served(s, input.request, R.Response(200, text)))
  }

  lemma CallStaysServed(s: R.State, s': R.State, input: IoEvent, output: IoEvent, text: string)
    requires R.Inv(s') && Settled(s, s') && CallServed(s, input, output, text)
    ensures CallServed(s', input, output, text)
  {
    hide R.Inv, Settled;
    if !output.invalidTool {
      ServedStays(s, s', input.request, R.Response(200, text));
    }
  }

  /** One more call, served like the ones before it. */
  lemma OneCallMore(s: R.State, s': R.State, events: seq<IoEvent>, outputs: seq<T.GenerationOutput>,
          action: T.GenerationOutput, invalidTool: bool, timedOut: bool, next: Option<R.RequestId>)
    requires R.Inv(s') && Settled(s, s') && CallsServed(s, events, outputs) && |events| == 2 * |outputs| + 1
    requires events[2 * |outputs|].ModelInput?
    requires !invalidTool ==> Served(s', events[2 * |outputs|].request, R.Response(200, action.text))
    ensures CallsServed(s', events + CallEvents(|outputs|, invalidTool, timedOut, next), outputs + [action])
  {
    hide R.Inv, Settled, Served;
    var events', outputs' := events + CallEvents(|outputs|, invalidTool, timedOut, next), outputs + [action];
    forall k | 0 <= k < |outputs'|
      ensures CallServed(s', events'[2 * k], events'[2 * k + 1], outputs'[k].text)
    {
      if k < |outputs| {
        assert CallServed(s, events[2 * k], events[2 * k + 1], outputs[k].text);
        CallStaysServed(s, s', events[2 * k], events[2 * k + 1], outputs[k].text);
      }
    }
  }

  lemma NoCallYet(s: R.State, events: seq<IoEvent>)
    ensures CallsServed(s, events, [])
  {
  }

  lemma AppendInput(events: seq<IoEvent>, n: nat, request: R.RequestId)
    requires Alternates(events, n, false)
    ensures Alternates(events + [ModelInput(n, request)], n, true)
  {
  }

  lemma AppendOutput(events: seq<IoEvent>, n: nat, invalidTool: bool)
    requires Alternates(events, n, true)
    ensures Alternates(events + [ModelOutput(n, invalidTool, false)], n + 1, false)
  {
  }

  lemma CallAppended(events: seq<IoEvent>, call: nat, invalidTool: bool, next: Option<R.RequestId>)
    ensures events + CallEvents(call, invalidTool, false, next)
      == if next.Some? then events + [ModelOutput(call, invalidTool, false)] + [ModelInput(call + 1, next.value)]
         else events + [ModelOutput(call, invalidTool, false)]
  {
  }

  class BlackBoxEnv {
    const registry: Registry
    const sessionId: R.SessionId
    const maxModelCalls: nat
    const maxLength: nat
    const captureRouting: bool
    var outputs: seq<T.GenerationOutput>
    var modelIoEvents: seq<IoEvent>
    var trace: Option<T.Trace>
    var current: Option<R.RequestId>
    var done: bool
    var normalFinish: bool
    var requestTimeout: bool
    var invalidToolCalls: nat
    var forcedScore: Option<real>

    /** Independent of where the environment stands: the trace has one turn sample per output. */
    ghost predicate Recorded()
      reads this
    {
      && (trace.Some? ==>
            T.Inv(trace.value) && |trace.value.samples| == |outputs| && trace.value.maxLength == maxLength)
      && (trace.None? ==> outputs == [])
    }

    ghost function CurrentSet(): set<R.RequestId>
      reads this
    {
      if current.Some? then {current.value} else {}
    }

    /** Between steps: at most the current request is delivered and unanswered, and none once done. */
    ghost predicate Valid()
      reads this, registry
    {
      && registry.Valid()
      && Recorded()
      && Alternates(modelIoEvents, |outputs|, current.Some?)
      && Unanswered(registry.State(), sessionId) <= CurrentSet()
      && (current.Some? ==>
            !done && trace.Some? && sessionId in registry.sessions && (outputs == [] || |outputs| < maxModelCalls))
      && (current.Some? ==>
            && Open(registry.State(), sessionId, current.value)
            && modelIoEvents[|modelIoEvents| - 1] == ModelInput(|outputs|, current.value))
      && (done ==> sessionId !in registry.sessions)
    }

    constructor (registry: Registry, sessionId: R.SessionId, maxModelCalls: nat, maxLength: nat, captureRouting: bool)
      requires registry.Valid() && Unanswered(registry.State(), sessionId) == {}
      ensures Valid() && !done && current.None? && outputs == [] && modelIoEvents == []
      ensures !normalFinish && !requestTimeout && invalidToolCalls == 0 && forcedScore.None?
      ensures this.registry == registry && this.sessionId == sessionId && this.maxModelCalls == maxModelCalls &&
              this.maxLength == maxLength && this.captureRouting == captureRouting
    {
      this.registry, this.sessionId, this.maxModelCalls := registry, sessionId, maxModelCalls;
      this.maxLength, this.captureRouting := maxLength, captureRouting;
      outputs, modelIoEvents, trace, current, done := [], [], None, None, false;
      normalFinish, requestTimeout, invalidToolCalls, forcedScore := false, false, 0, None;
    }

    /** Model calls left before the environment must stop; the first call is always allowed. */
    function CallsLeft(): nat
      reads this
    {
      var limit := if maxModelCalls == 0 then 1 else maxModelCalls;
      if |outputs| <= limit then limit - |outputs| else 0
    }

    /** Other coroutines run for a while. */
    method Interleave(others: seq<R.Event>)
      requires registry.Valid()
      modifies registry
      ensures registry.Valid() && Undisturbed(old(registry.State()), registry.State(), sessionId)
      ensures OnlyDeadlines(old(registry.State()), registry.State(), sessionId, others)
      ensures Unanswered(registry.State(), sessionId) <= old(Unanswered(registry.State(), sessionId))
      ensures registry.State() == RunOthers(old(registry.State()), sessionId, others)
    {
      hide R.QueueInv, R.LiveInv, R.Apply, Undisturbed, OnlyDeadlines, Unanswered, RunOthers;
      OthersStart(registry.State());
      ghost var start := registry.State();
      StartUndisturbed(start);
      for i := 0 to |others|
        invariant registry.Valid() && Undisturbed(start, registry.State(), sessionId)
        invariant OnlyDeadlines(start, registry.State(), sessionId, others[..i])
        invariant Unanswered(registry.State(), sessionId) <= Unanswered(start, sessionId)
        invariant registry.State() == RunOthers(start, sessionId, others[..i])
      {
        assert others[..i + 1] == others[..i] + [others[i]];
        OthersStep(start, others[..i], others[i]);
        OtherRuns(start, others[..i], others[i]);
      }
      assert others[..|others|] == others;
    }

    lemma OthersStart(start: R.State)
      ensures RunOthers(start, sessionId, []) == start
    {
    }

    lemma OthersStep(start: R.State, events: seq<R.Event>, e: R.Event)
      ensures var before := RunOthers(start, sessionId, events);
        RunOthers(start, sessionId, events + [e]) ==
          if Foreign(before.sessions, before.sessionOf, sessionId, e) then R.Apply(before, e) else before
    {
      assert (events + [e])[..|events|] == events;
    }

    lemma StartUndisturbed(start: R.State)
      ensures Undisturbed(start, start, sessionId) && OnlyDeadlines(start, start, sessionId, [])
    {
    }

    /** One event of another coroutine; `events` happened since `start`. An event of the session's owner is no such. */
    method OtherRuns(ghost start: R.State, ghost events: seq<R.Event>, e: R.Event)
      requires registry.Valid() && Undisturbed(start, registry.State(), sessionId)
      requires OnlyDeadlines(start, registry.State(), sessionId, events)
      modifies registry
      ensures registry.Valid() && Undisturbed(start, registry.State(), sessionId)
      ensures OnlyDeadlines(start, registry.State(), sessionId, events + [e])
      ensures Unanswered(registry.State(), sessionId) <= old(Unanswered(registry.State(), sessionId))
      ensures var before := old(registry.State());
        registry.State() ==
          if Foreign(before.sessions, before.sessionOf, sessionId, e) then R.Apply(before, e) else before
    {
      hide R.Inv, R.Apply, Undisturbed, OnlyDeadlines, Unanswered;
      ghost var before := registry.State();
      if Foreign(registry.sessions, registry.sessionOf, sessionId, e) {
        ForeignKeeps(before, sessionId, e);
        ForeignUndisturbed(before, sessionId, e);
        DeadlinesStep(start, before, R.Apply(before, e), sessionId, events, e);
        UndisturbedTrans(start, before, R.Apply(before, e), sessionId);
        registry.Perform(e);
      } else {
        DeadlinesSkip(start, before, sessionId, events, e);
      }
    }

    /** `wait_for_request`: take from the session's queue until a live request comes; `None` is a timeout. */
    method WaitForRequest(whileWaiting: seq<seq<R.Event>>) returns (r: Option<R.RequestId>)
      requires registry.Valid() && sessionId in registry.sessions
      requires Unanswered(registry.State(), sessionId) == {}
      modifies registry
      ensures registry.Valid() && Undisturbed(old(registry.State()), registry.State(), sessionId)
      ensures Unanswered(registry.State(), sessionId) <= if r.Some? then {r.value} else {}
      ensures r.Some? ==> r.value in registry.requests && Open(registry.State(), sessionId, r.value)
      ensures (registry.State(), r) == Await(old(registry.State()), sessionId, whileWaiting)
    {
      hide R.QueueInv, R.LiveInv, Settled, Open, Unanswered, OnlyDeadlines, RunOthers, TakeNext, Await;
      ghost var start := registry.State();
      assert whileWaiting[0..] == whileWaiting;
      StartUndisturbed(start);
      for i := 0 to |whileWaiting|
        invariant registry.Valid() && Undisturbed(start, registry.State(), sessionId)
        invariant Unanswered(registry.State(), sessionId) == {}
        invariant Await(start, sessionId, whileWaiting) == Await(registry.State(), sessionId, whileWaiting[i..])
      {
        ghost var before := registry.State();
        AwaitRound(before, whileWaiting[i..]);
        Interleave(whileWaiting[i]);
        UndisturbedTrans(start, before, registry.State(), sessionId);
        before := registry.State();
        r := TakeOwn();
        UndisturbedTrans(start, before, registry.State(), sessionId);
        if r.Some? {
          return;
        }
      }
      AwaitEnds(registry.State());
      r := None;
    }

    lemma AwaitEnds(s: R.State)
      ensures Await(s, sessionId, []) == (s, None)
    {
    }

    lemma AwaitRound(s: R.State, rounds: seq<seq<R.Event>>)
      requires rounds != []
      ensures var (next, r) := TakeNext(RunOthers(s, sessionId, rounds[0]), sessionId);
        Await(s, sessionId, rounds) == if r.Some? then (next, r) else Await(next, sessionId, rounds[1..])
    {
    }

    /** One `queue.get()` on the session's queue, if it holds anything; a dead request is skipped. */
    method TakeOwn() returns (r: Option<R.RequestId>)
      requires registry.Valid() && sessionId in registry.sessions
      requires Unanswered(registry.State(), sessionId) == {}
      modifies registry
      ensures registry.Valid() && Undisturbed(old(registry.State()), registry.State(), sessionId)
      ensures Unanswered(registry.State(), sessionId) <= if r.Some? then {r.value} else {}
      ensures r.Some? ==> r.value in registry.requests && Open(registry.State(), sessionId, r.value)
      ensures (registry.State(), r) == TakeNext(old(registry.State()), sessionId)
    {
      hide R.QueueInv, R.LiveInv, Undisturbed, Open, R.TakeHead;
      StartUndisturbed(registry.State());
      var q := registry.sessions[sessionId];
      r := None;
      if registry.queues[q] != [] {
        OwnTake(registry.State(), sessionId);
        var request, live := registry.TakeFromQueue(q);
        if live {
          LiveIsOpen(registry.State(), sessionId, request);
          r := Some(request);
        }
      }
    }

    /** The trace after the prompt re-render for a rendered request. */
    ghost function Rendered(t: T.Trace, prompt: Prompt): Option<T.Trace> {
      var conv := T.Conversation(prompt.messages, T.GenState(prompt.inputIds, captureRouting, 0));
      T.Step(t, T.RenderPrompt(Some(conv), prompt.inputIds))
    }

    /** Render the next prompt into the trace; `tooLong` leaves trace and event log untouched. */
    method BuildObservation(request: R.RequestId, prompt: Prompt) returns (tooLong: bool)
      requires Recorded() && Alternates(modelIoEvents, |outputs|, false)
      modifies this`trace, this`modelIoEvents
      ensures Recorded()
      ensures tooLong <==> |prompt.inputIds| > maxLength
      ensures tooLong ==> trace == old(trace) && modelIoEvents == old(modelIoEvents)
      ensures !tooLong ==> trace.Some? && trace.value.conv.gen.inputIds == prompt.inputIds
      ensures !tooLong ==> modelIoEvents == old(modelIoEvents) + [ModelInput(|outputs|, request)]
                           && Alternates(modelIoEvents, |outputs|, true)
      ensures old(trace).Some? && trace.Some? ==> trace.value.samples == old(trace).value.samples
      ensures !tooLong ==>
                trace.value.conv.messages == prompt.messages && trace.value.conv.gen.captureRouting == captureRouting
      ensures !tooLong && old(trace).Some? ==> trace == Rendered(old(trace).value, prompt)
    {
      tooLong := |prompt.inputIds| > maxLength;
      if tooLong {
        return;
      }
      var conv := T.Conversation(prompt.messages, T.GenState(prompt.inputIds, captureRouting, 0));
      if trace.None? {
        T.InitialInv(conv, maxLength);
        T.PreparePromptKeepsInv(T.Initial(conv, maxLength), None, prompt.inputIds);
        trace := Some(T.PreparePrompt(T.Initial(conv, maxLength), prompt.inputIds));
      } else {
        T.PreparePromptKeepsInv(trace.value, Some(conv), prompt.inputIds);
        trace := Some(T.PreparePrompt(trace.value.(conv := conv), prompt.inputIds));
      }
      AppendInput(modelIoEvents, |outputs|, request);
      modelIoEvents := modelIoEvents + [ModelInput(|outputs|, request)];
    }

    /** Mark the rollout done, answer a pending request with an error, close the session. */
    method CloseSessionAndTerminate(pending: Option<R.RequestId>, status: int, score: Option<real>,
            beforeClose: seq<R.Event>)
      requires registry.Valid()
      modifies this`done, this`forcedScore, this`current, registry
      ensures registry.Valid() && sessionId !in registry.sessions && Unanswered(registry.State(), sessionId) == {}
      ensures done && current.None?
      ensures forcedScore == if score.Some? then score else old(forcedScore)
      ensures Settled(old(registry.State()), registry.State())
      ensures pending.Some? && old(Open(registry.State(), sessionId, pending.value)) ==>
                Replied(registry.State(), pending.value, Failure(status), old(Waiting(registry.State(), pending.value)))
    {
      hide R.Inv, Settled, Open, Waiting, Replied, Unanswered;
      done := true;
      if score.Some? {
        forcedScore := score;
      }
      if pending.Some? {
        OwnAnswer(registry.State(), sessionId, pending.value, Failure(status));
        registry.Respond(pending.value, Failure(status));
        ghost var answered := registry.State();
        InterleaveAndClose(beforeClose);
        SettledTrans(old(registry.State()), answered, registry.State());
        if old(Open(registry.State(), sessionId, pending.value)) {
          RepliedStays(answered, registry.State(), pending.value, Failure(status),
              old(Waiting(registry.State(), pending.value)));
        }
      } else {
        InterleaveAndClose(beforeClose);
      }
      current := None;
    }

    method InterleaveAndClose(beforeClose: seq<R.Event>)
      requires registry.Valid()
      modifies registry
      ensures registry.Valid() && sessionId !in registry.sessions && Unanswered(registry.State(), sessionId) == {}
      ensures Settled(old(registry.State()), registry.State())
    {
      hide R.Inv, Settled, Open, Unanswered, OnlyDeadlines;
      ghost var start := registry.State();
      Interleave(beforeClose);
      ghost var before := registry.State();
      OwnClose(before, sessionId);
      registry.CloseSession(sessionId);
      SettledTrans(start, before, registry.State());
    }

    /**
     `_attach_request_timeout_to_last_output`: the output of the call is always in the log, so nothing is appended.
     */
    method AttachRequestTimeout(call: nat)
      requires Alternates(modelIoEvents, call + 1, false)
      modifies this`modelIoEvents
      ensures Alternates(modelIoEvents, call + 1, false)
      ensures EndsWithOutput(old(modelIoEvents)) && modelIoEvents == MarkTimeout(old(modelIoEvents))
    {
      assert modelIoEvents[|modelIoEvents| - 1].ModelOutput? && modelIoEvents[|modelIoEvents| - 1].call == call;
      for i := |modelIoEvents| downto 0
        invariant modelIoEvents == old(modelIoEvents)
        invariant forall j :: i <= j < |modelIoEvents| ==> modelIoEvents[j].ModelInput? || modelIoEvents[j].call != call
      {
        if modelIoEvents[i].ModelOutput? && modelIoEvents[i].call == call {
          modelIoEvents := modelIoEvents[i := modelIoEvents[i].(requestTimeout := true)];
          return;
        }
      }
      // The source appends a second output event here.
      assert false;
    }

    /** `_finish`: closing again is harmless, and a forced score wins over the verifier's. */
    method Finish(verifierScore: real) returns (score: real)
      requires registry.Valid() && Recorded() && Alternates(modelIoEvents, |outputs|, false) && current.None?
      modifies this`done, registry
      ensures Valid() && done && Settled(old(registry.State()), registry.State())
      ensures score == if forcedScore.Some? then forcedScore.value else verifierScore
    {
      done := true;
      OwnClose(registry.State(), sessionId);
      registry.CloseSession(sessionId);
      score := if forcedScore.Some? then forcedScore.value else verifierScore;
    }

    /** What a step returns as reward: the final score once finished, zero before. */
    ghost predicate Scored(finished: bool, verifierScore: real, reward: real)
      reads this
    {
      reward == if !finished then 0.0 else if forcedScore.Some? then forcedScore.value else verifierScore
    }

    /** Terminate, then finish. */
    method CloseAndFinish(pending: Option<R.RequestId>, status: int, score: Option<real>, beforeClose: seq<R.Event>,
            verifierScore: real)
      returns (reward: real)
      requires registry.Valid() && Recorded() && Alternates(modelIoEvents, |outputs|, false)
      modifies this`done, this`forcedScore, this`current, registry
      ensures Valid() && done && current.None? && Scored(true, verifierScore, reward)
      ensures forcedScore == if score.Some? then score else old(forcedScore)
      ensures Settled(old(registry.State()), registry.State())
      ensures pending.Some? && old(Open(registry.State(), sessionId, pending.value)) ==>
                Replied(registry.State(), pending.value, Failure(status), old(Waiting(registry.State(), pending.value)))
    {
      hide R.Inv, T.Inv, Settled, Open, Waiting, Replied, Unanswered, Alternates;
      CloseSessionAndTerminate(pending, status, score, beforeClose);
      ghost var before := registry.State();
      reward := Finish(verifierScore);
      SettledTrans(old(registry.State()), before, registry.State());
      if pending.Some? && old(Open(registry.State(), sessionId, pending.value)) {
        RepliedStays(before, registry.State(), pending.value, Failure(status),
            old(Waiting(registry.State(), pending.value)));
      }
    }

    /** What a launch attempt comes to, and the registry it leaves. */
    ghost function AttemptOutcome(s: R.State, attempt: Attempt): (R.State, Option<R.RequestId>) {
      var created := R.CreateSession(s, sessionId);
      match attempt
      case LaunchFails(during) => (R.CloseSession(RunOthers(created, sessionId, during), sessionId), None)
      case Launches(whileWaiting, whileConverting, conversionFails) =>
        ConversionOutcome(Await(created, sessionId, whileWaiting), whileConverting, conversionFails)
    }

    ghost function ConversionOutcome(waited: (R.State, Option<R.RequestId>), whileConverting: seq<R.Event>,
            conversionFails: bool): (R.State, Option<R.RequestId>) {
      if waited.1.None? then (R.CloseSession(waited.0, sessionId), None)
      else
        var converted := RunOthers(waited.0, sessionId, whileConverting);
        if conversionFails then (R.CloseSession(converted, sessionId), None) else (converted, waited.1)
    }

    /** The first attempt that gets a request ends the launch. */
    ghost function LaunchOutcome(s: R.State, attempts: seq<Attempt>): (R.State, Option<R.RequestId>)
      decreases |attempts|
    {
      if attempts == [] then (s, None)
      else
        var (next, early) := AttemptOutcome(s, attempts[0]);
        if early.Some? then (next, early) else LaunchOutcome(next, attempts[1..])
    }

    /** One launch attempt: unless a request arrives and is converted, its session is closed again. */
    method TryAttempt(attempt: Attempt) returns (early: Option<R.RequestId>)
      requires registry.Valid() && sessionId !in registry.sessions
      modifies registry
      ensures registry.Valid()
      ensures early.None? ==> sessionId !in registry.sessions && Unanswered(registry.State(), sessionId) == {}
      ensures early.Some? ==> sessionId in registry.sessions && Unanswered(registry.State(), sessionId) <= {early.value}
      ensures early.Some? ==> Open(registry.State(), sessionId, early.value)
      ensures (registry.State(), early) == AttemptOutcome(old(registry.State()), attempt)
    {
      hide R.QueueInv, R.LiveInv, Settled, OnlyDeadlines, Open, Await, RunOthers, R.CreateSession, R.CloseSession;
      hide ConversionOutcome;
      ClosedHasNone(registry.State(), sessionId);
      OwnCreate(registry.State(), sessionId);
      var _ := registry.CreateSession(sessionId);
      match attempt {
        case LaunchFails(during) =>
          Interleave(during);
          CloseAttempt();
          early := None;
        case Launches(whileWaiting, whileConverting, conversionFails) =>
          early := WaitForRequest(whileWaiting);
          early := Convert(early, whileConverting, conversionFails);
      }
    }

    method CloseAttempt()
      requires registry.Valid()
      modifies registry
      ensures registry.Valid() && sessionId !in registry.sessions && Unanswered(registry.State(), sessionId) == {}
      ensures registry.State() == R.CloseSession(old(registry.State()), sessionId)
    {
      hide R.QueueInv, R.LiveInv;
      OwnClose(registry.State(), sessionId);
      registry.CloseSession(sessionId);
    }

    /** The end of an attempt: without a request, or when its conversion raises, the session is closed. */
    method Convert(request: Option<R.RequestId>, whileConverting: seq<R.Event>, conversionFails: bool)
      returns (early: Option<R.RequestId>)
      requires registry.Valid() && sessionId in registry.sessions
      requires Unanswered(registry.State(), sessionId) <= if request.Some? then {request.value} else {}
      requires request.Some? ==> Open(registry.State(), sessionId, request.value)
      modifies registry
      ensures registry.Valid()
      ensures early.None? ==> sessionId !in registry.sessions && Unanswered(registry.State(), sessionId) == {}
      ensures early.Some? ==>
                sessionId in registry.sessions && Unanswered(registry.State(), sessionId) <= {early.value}
      ensures early.Some? ==> Open(registry.State(), sessionId, early.value)
      ensures (registry.State(), early) ==
              ConversionOutcome((old(registry.State()), request), whileConverting, conversionFails)
    {
      hide R.QueueInv, R.LiveInv, OnlyDeadlines, Open, RunOthers, R.CloseSession;
      early := None;
      if request.Some? {
        Interleave(whileConverting);
        if !conversionFails {
          return request;
        }
      }
      CloseAttempt();
    }

    lemma LaunchStep(s: R.State, attempts: seq<Attempt>, i: nat)
      requires i < |attempts|
      ensures var (next, early) := AttemptOutcome(s, attempts[i]);
        LaunchOutcome(s, attempts[i..]) ==
          if early.Some? then (next, early) else LaunchOutcome(next, attempts[i + 1..])
    {
      hide AttemptOutcome;
      assert attempts[i..][0] == attempts[i] && attempts[i..][1..] == attempts[i + 1..];
    }

    lemma NothingLaunched(s: R.State)
      ensures LaunchOutcome(s, []) == (s, None)
    {
    }

    /**
     `start`: keep launching until a first request arrives. `started` is false if every attempt offered here failed.
     */
    method Start(attempts: seq<Attempt>, prompt: Prompt) returns (started: bool)
      requires Valid() && !done && current.None? && outputs == [] && modelIoEvents == []
      requires sessionId !in registry.sessions
      requires |prompt.inputIds| <= maxLength
      modifies this`trace, this`modelIoEvents, this`current, registry
      ensures Valid() && !done
      ensures started <==> current.Some?
      ensures started ==> modelIoEvents == [ModelInput(0, current.value)]
      ensures started ==> trace.Some? && trace.value.conv.gen.inputIds == prompt.inputIds
      ensures !started ==> sessionId !in registry.sessions && Unanswered(registry.State(), sessionId) == {}
      ensures (registry.State(), current) == LaunchOutcome(old(registry.State()), attempts)
    {
      hide LaunchOutcome, R.Inv, Open, Unanswered;
      var early := Launch(attempts);
      if early.Some? {
        var tooLong := BuildObservation(early.value, prompt);
      }
      current := early;
      started := early.Some?;
    }

    /** Attempt after attempt, until one gets a request. */
    method Launch(attempts: seq<Attempt>) returns (early: Option<R.RequestId>)
      requires registry.Valid() && sessionId !in registry.sessions
      modifies registry
      ensures registry.Valid()
      ensures early.None? ==> sessionId !in registry.sessions && Unanswered(registry.State(), sessionId) == {}
      ensures early.Some? ==> sessionId in registry.sessions && Unanswered(registry.State(), sessionId) <= {early.value}
      ensures early.Some? ==> Open(registry.State(), sessionId, early.value)
      ensures (registry.State(), early) == LaunchOutcome(old(registry.State()), attempts)
    {
      hide AttemptOutcome, LaunchOutcome, R.QueueInv, R.LiveInv, Open;
      ghost var start := registry.State();
      assert attempts[0..] == attempts;
      ClosedHasNone(registry.State(), sessionId);
      for i := 0 to |attempts|
        invariant registry.Valid() && sessionId !in registry.sessions
        invariant Unanswered(registry.State(), sessionId) == {}
        invariant LaunchOutcome(start, attempts) == LaunchOutcome(registry.State(), attempts[i..])
      {
        LaunchStep(registry.State(), attempts, i);
        early := TryAttempt(attempts[i]);
        if early.Some? {
          return;
        }
      }
      assert attempts[|attempts|..] == [];
      NothingLaunched(registry.State());
      early := None;
    }

    /** The trace side of a model answer: one more turn sample, one more output event. */
    method RecordAnswer(action: T.GenerationOutput, invalidTool: bool)
      requires Recorded() && trace.Some? && Alternates(modelIoEvents, |outputs|, true)
      requires T.FromEngine(trace.value.conv.gen, action) && T.AssistantAccepted(trace.value, action)
      modifies this`outputs, this`trace, this`modelIoEvents
      ensures Recorded() && trace.Some?
      ensures outputs == old(outputs) + [action]
      ensures trace == Some(T.AppendAssistantTurn(old(trace).value, action))
      ensures old(trace).value.samples <= trace.value.samples
      ensures modelIoEvents == old(modelIoEvents) + [ModelOutput(|old(outputs)|, invalidTool, false)]
      ensures Alternates(modelIoEvents, |outputs|, false)
    {
      var call := |outputs|;
      outputs := outputs + [action];
      T.AppendAssistantKeepsInv(trace.value, action);
      trace := Some(T.AppendAssistantTurn(trace.value, action));
      AppendOutput(modelIoEvents, call, invalidTool);
      modelIoEvents := modelIoEvents + [ModelOutput(call, invalidTool, false)];
    }

    /** A feedback message changes the conversation only. */
    method AddFeedback(text: string)
      requires Recorded() && trace.Some?
      modifies this`trace
      ensures Recorded() && trace.Some? && trace.value.samples == old(trace).value.samples
      ensures trace.value.conv.messages == old(trace).value.conv.messages + [T.Message(T.UserRole, text)]
      ensures trace.value.infos == old(trace).value.infos && trace.value.conv.gen == old(trace).value.conv.gen
    {
      trace := Some(T.AddMessage(trace.value, T.Message(T.UserRole, text)));
    }

    /** One model call: record it, answer or retry the request, and either finish or hand out the next observation. */
    method Step(action: T.GenerationOutput, choices: StepChoices)
      returns (finished: bool, timedOut: bool, reward: real)
      requires Valid() && current.Some?
      requires T.FromEngine(trace.value.conv.gen, action) && T.AssistantAccepted(trace.value, action)
      modifies this, registry
      ensures Valid() && (if finished then done else current.Some?)
      ensures outputs == old(outputs) + [action]
      ensures trace.Some? && |trace.value.samples| == |outputs| && old(trace).value.samples <= trace.value.samples
      ensures modelIoEvents == old(modelIoEvents) + CallEvents(|old(outputs)|, choices.invalidTool, timedOut, current)
      ensures finished ==> Unanswered(registry.State(), sessionId) == {}
      ensures !finished ==> CallsLeft() < old(CallsLeft())
      ensures |outputs| >= maxModelCalls ==> finished
      ensures reward ==
              if !finished then 0.0 else if forcedScore.Some? then forcedScore.value else choices.verifierScore
      ensures old(forcedScore).None? && forcedScore.Some? ==>
                forcedScore == Some(0.0) && (timedOut || |choices.nextPrompt.inputIds| > maxLength)
      ensures timedOut ==> forcedScore == Some(0.0)
      ensures choices.invalidTool && finished && |outputs| < maxModelCalls ==> forcedScore == Some(0.0)
      ensures choices.invalidTool && !finished ==> current == old(current)
      ensures choices.invalidTool ==>
                (finished <==> |outputs| >= maxModelCalls || |choices.nextPrompt.inputIds| > maxLength)
      ensures !choices.invalidTool && (choices.normalFinish || |outputs| >= maxModelCalls) ==> finished && !timedOut
      ensures !choices.invalidTool && !choices.normalFinish && |outputs| < maxModelCalls ==>
                var next := NextRequest(old(registry.State()), old(current).value, action.text, choices);
                && (timedOut <==> next.None? && !choices.runtimeDone)
                && (finished <==> next.None? || |choices.nextPrompt.inputIds| > maxLength)
                && (!finished ==> current == next)
      ensures Settled(old(registry.State()), registry.State())
      ensures !choices.invalidTool ==> Replied(registry.State(), old(current).value, R.Response(200, action.text),
                old(Waiting(registry.State(), current.value)) && R.Expire(old(current).value) !in choices.beforeRespond)
      ensures choices.invalidTool && finished ==> Replied(registry.State(), old(current).value,
                R.Response(if |outputs| >= maxModelCalls then 400 else 413, "openai_proxy_error"),
                old(Waiting(registry.State(), current.value)) &&
                (|outputs| >= maxModelCalls || R.Expire(old(current).value) !in choices.beforeRespond))
    {
      hide R.Inv, T.Inv, Settled, Open, Waiting, Replied, Unanswered, Alternates, T.FromEngine, T.AssistantAccepted;
      hide NextRequest;
      if choices.invalidTool {
        timedOut := false;
        finished, reward := RetryAfterInvalidToolCall(action, choices);
      } else {
        finished, timedOut, reward := AnswerAndContinue(action, choices);
      }
    }

    /** The path of `step` without an invalid tool call. */
    method AnswerAndContinue(action: T.GenerationOutput, choices: StepChoices)
      returns (finished: bool, timedOut: bool, reward: real)
      requires Valid() && current.Some?
      requires T.FromEngine(trace.value.conv.gen, action) && T.AssistantAccepted(trace.value, action)
      modifies this, registry
      ensures Valid() && (if finished then done else current.Some?)
      ensures Scored(finished, choices.verifierScore, reward)
      ensures forcedScore == old(forcedScore) ||
              (forcedScore == Some(0.0) && finished && (timedOut || |choices.nextPrompt.inputIds| > maxLength))
      ensures outputs == old(outputs) + [action]
      ensures trace.Some? && old(trace).value.samples <= trace.value.samples
      ensures modelIoEvents == old(modelIoEvents) + CallEvents(|old(outputs)|, false, timedOut, current)
      ensures choices.normalFinish || |outputs| >= maxModelCalls ==>
              finished && !timedOut && forcedScore == old(forcedScore)
      ensures !choices.normalFinish && |outputs| < maxModelCalls ==>
                var next := NextRequest(old(registry.State()), old(current).value, action.text, choices);
                && (timedOut <==> next.None? && !choices.runtimeDone)
                && (finished <==> next.None? || |choices.nextPrompt.inputIds| > maxLength)
                && (!finished ==> current == next)
      ensures timedOut ==> finished && !choices.runtimeDone && forcedScore == Some(0.0)
      ensures choices.normalFinish ==> normalFinish
      ensures !choices.normalFinish && !old(normalFinish) ==> !normalFinish
      ensures requestTimeout == (old(requestTimeout) || timedOut)
      ensures Settled(old(registry.State()), registry.State())
      ensures Replied(registry.State(), old(current).value, R.Response(200, action.text),
                old(Waiting(registry.State(), current.value)) && R.Expire(old(current).value) !in choices.beforeRespond)
    {
      hide R.Inv, T.Inv, Settled, Open, Waiting, Replied, Unanswered, Alternates, T.FromEngine, T.AssistantAccepted;
      hide Await, StateAfterAnswer;
      var request := current.value;
      AnswerRequest(action, request, choices.beforeRespond);
      ghost var answered := registry.State();
      finished, timedOut, reward := GoOn(choices);
      SettledTrans(old(registry.State()), answered, registry.State());
      RepliedStays(answered, registry.State(), request, R.Response(200, action.text),
          old(Waiting(registry.State(), current.value)) && R.Expire(request) !in choices.beforeRespond);
    }

    /** After the answer: finish, or wait for the next request while calls are left. */
    method GoOn(choices: StepChoices)
      returns (finished: bool, timedOut: bool, reward: real)
      requires registry.Valid() && Recorded() && trace.Some? && Alternates(modelIoEvents, |outputs|, false)
      requires sessionId in registry.sessions && Unanswered(registry.State(), sessionId) == {}
      requires !done && current.None? && 0 < |outputs|
      modifies this, registry
      ensures Valid() && (if finished then done else current.Some?)
      ensures Scored(finished, choices.verifierScore, reward)
      ensures forcedScore == old(forcedScore) ||
              (forcedScore == Some(0.0) && finished && (timedOut || |choices.nextPrompt.inputIds| > maxLength))
      ensures trace.Some? && trace.value.samples == old(trace).value.samples && outputs == old(outputs)
      ensures choices.normalFinish || |outputs| >= maxModelCalls ==>
                finished && !timedOut && forcedScore == old(forcedScore)
      ensures !choices.normalFinish && |outputs| < maxModelCalls ==>
                var next := Await(old(registry.State()), sessionId, choices.whileWaiting).1;
                && (timedOut <==> next.None? && !choices.runtimeDone)
                && (finished <==> next.None? || |choices.nextPrompt.inputIds| > maxLength)
                && (!finished ==> current == next)
      ensures choices.normalFinish ==> normalFinish
      ensures !choices.normalFinish && !old(normalFinish) ==> !normalFinish
      ensures requestTimeout == (old(requestTimeout) || timedOut)
      ensures timedOut ==> finished && !choices.runtimeDone && forcedScore == Some(0.0)
      ensures timedOut ==> EndsWithOutput(old(modelIoEvents)) && modelIoEvents == MarkTimeout(old(modelIoEvents))
      ensures !timedOut ==> modelIoEvents == if finished then old(modelIoEvents)
              else old(modelIoEvents) + [ModelInput(|outputs|, current.value)]
      ensures Settled(old(registry.State()), registry.State())
    {
      hide R.Inv, T.Inv, Settled, Open, Waiting, Replied, Unanswered, Alternates, Await;
      finished, timedOut := true, false;
      if choices.normalFinish || |outputs| >= maxModelCalls {
        normalFinish := choices.normalFinish;
        reward := CloseAndFinish(None, 500, None, choices.beforeClose, choices.verifierScore);
        return;
      }
      finished, timedOut, reward := AwaitNext(choices);
    }

    /** The rest of `step` once the answer is sent and calls are left. */
    method AwaitNext(choices: StepChoices)
      returns (finished: bool, timedOut: bool, reward: real)
      requires registry.Valid() && Recorded() && trace.Some? && Alternates(modelIoEvents, |outputs|, false)
      requires sessionId in registry.sessions && Unanswered(registry.State(), sessionId) == {}
      requires !done && current.None? && 0 < |outputs| < maxModelCalls
      modifies this`done, this`forcedScore, this`current, this`trace, this`modelIoEvents, this`requestTimeout, registry
      ensures Valid() && (if finished then done else current.Some?)
      ensures Scored(finished, choices.verifierScore, reward)
      ensures forcedScore == old(forcedScore) ||
              (forcedScore == Some(0.0) && finished && (timedOut || |choices.nextPrompt.inputIds| > maxLength))
      ensures trace.Some? && trace.value.samples == old(trace).value.samples
      ensures timedOut ==> finished && !choices.runtimeDone && forcedScore == Some(0.0)
      ensures timedOut ==> EndsWithOutput(old(modelIoEvents)) && modelIoEvents == MarkTimeout(old(modelIoEvents))
      ensures !timedOut ==> modelIoEvents == if finished then old(modelIoEvents)
              else old(modelIoEvents) + [ModelInput(|outputs|, current.value)]
      ensures requestTimeout == (old(requestTimeout) || timedOut)
      ensures Settled(old(registry.State()), registry.State())
      ensures var next := Await(old(registry.State()), sessionId, choices.whileWaiting).1;
        && (timedOut <==> next.None? && !choices.runtimeDone)
        && (finished <==> next.None? || |choices.nextPrompt.inputIds| > maxLength)
        && (!finished ==> current == next)
    {
      hide R.Inv, T.Inv, Settled, Open, Waiting, Replied, Unanswered, Alternates, Await;
      finished, timedOut := true, false;
      var next := WaitForRequest(choices.whileWaiting);
      ghost var taken := registry.State();
      if next.Some? {
        finished, reward := NextObservation(next.value, choices);
      } else {
        timedOut := !choices.runtimeDone;
        reward := NothingCame(choices);
      }
      SettledTrans(old(registry.State()), taken, registry.State());
    }

    /** No request came: a timeout unless the runtime is done. */
    method NothingCame(choices: StepChoices) returns (reward: real)
      requires registry.Valid() && Recorded() && trace.Some? && Alternates(modelIoEvents, |outputs|, false)
      requires current.None? && |outputs| > 0
      modifies this`done, this`forcedScore, this`current, this`trace, this`modelIoEvents, this`requestTimeout, registry
      ensures Valid() && done && trace.Some? && trace.value.samples == old(trace).value.samples
      ensures Scored(true, choices.verifierScore, reward)
      ensures choices.runtimeDone ==> forcedScore == old(forcedScore)
      ensures choices.runtimeDone ==> modelIoEvents == old(modelIoEvents) && requestTimeout == old(requestTimeout)
      ensures !choices.runtimeDone ==> forcedScore == Some(0.0) && requestTimeout
      ensures !choices.runtimeDone ==>
                EndsWithOutput(old(modelIoEvents)) && modelIoEvents == MarkTimeout(old(modelIoEvents))
      ensures Settled(old(registry.State()), registry.State())
    {
      hide R.Inv, T.Inv, Settled, Unanswered, Alternates;
      if !choices.runtimeDone {
        TimeOut(choices.beforeClose);
        ghost var closed := registry.State();
        reward := Finish(choices.verifierScore);
        SettledTrans(old(registry.State()), closed, registry.State());
      } else {
        reward := Finish(choices.verifierScore);
      }
    }

    /** The registry once other coroutines ran and the request was answered with the model's output. */
    ghost function StateAfterAnswer(s: R.State, request: R.RequestId, text: string, beforeRespond: seq<R.Event>)
            : R.State {
      R.Answer(RunOthers(s, sessionId, beforeRespond), request, R.Response(200, text))
    }

    /** The request that the session's queue delivers after that, if one comes in time. */
    ghost function NextRequest(s: R.State, request: R.RequestId, text: string, choices: StepChoices)
            : Option<R.RequestId> {
      Await(StateAfterAnswer(s, request, text, choices.beforeRespond), sessionId, choices.whileWaiting).1
    }

    /** Record the answer and send it to the waiting request. */
    method AnswerRequest(action: T.GenerationOutput, request: R.RequestId, beforeRespond: seq<R.Event>)
      requires Valid() && current == Some(request)
      requires T.FromEngine(trace.value.conv.gen, action) && T.AssistantAccepted(trace.value, action)
      modifies this`outputs, this`trace, this`modelIoEvents, this`current, registry
      ensures registry.Valid() && Recorded() && trace.Some? && current.None?
      ensures sessionId in registry.sessions && Unanswered(registry.State(), sessionId) == {} &&
              request !in registry.requests
      ensures Settled(old(registry.State()), registry.State())
      ensures Replied(registry.State(), request, R.Response(200, action.text),
                old(Waiting(registry.State(), request)) && R.Expire(request) !in beforeRespond)
      ensures registry.State() == StateAfterAnswer(old(registry.State()), request, action.text, beforeRespond)
      ensures outputs == old(outputs) + [action] && old(trace).value.samples <= trace.value.samples
      ensures modelIoEvents == old(modelIoEvents) + [ModelOutput(|old(outputs)|, false, false)]
      ensures Alternates(modelIoEvents, |outputs|, false)
    {
      hide R.Inv, T.Inv, Alternates, Unanswered, T.FromEngine, T.AssistantAccepted;
      hide Settled, Open, Waiting, Replied, T.AppendAssistantTurn;
      RecordAnswer(action, false);
      SendResponse(request, R.Response(200, action.text), beforeRespond);
      current := None;
    }

    /** Other coroutines run, then the pending request gets its response. */
    method SendResponse(request: R.RequestId, response: R.Response, beforeRespond: seq<R.Event>)
      requires registry.Valid() && sessionId in registry.sessions
      requires Unanswered(registry.State(), sessionId) <= {request} && Open(registry.State(), sessionId, request)
      modifies registry
      ensures registry.Valid() && sessionId in registry.sessions
      ensures Unanswered(registry.State(), sessionId) == {} && request !in registry.requests
      ensures Settled(old(registry.State()), registry.State())
      ensures Replied(registry.State(), request, response,
                old(Waiting(registry.State(), request)) && R.Expire(request) !in beforeRespond)
      ensures registry.State() ==
              R.Answer(RunOthers(old(registry.State()), sessionId, beforeRespond), request, response)
    {
      hide R.Inv, R.Answer, RunOthers, Settled, Unanswered, OnlyDeadlines, Waiting;
      ghost var start := registry.State();
      Interleave(beforeRespond);
      ghost var before := registry.State();
      WaitsUnlessExpired(start, before, sessionId, beforeRespond, request);
      OwnAnswer(before, sessionId, request, response);
      registry.Respond(request, response);
      SettledTrans(start, before, registry.State());
    }

    /** `_terminate_by_request_timeout`. */
    method TimeOut(beforeClose: seq<R.Event>)
      requires registry.Valid() && Recorded() && trace.Some? && |outputs| > 0 &&
              Alternates(modelIoEvents, |outputs|, false)
      modifies this`modelIoEvents, this`trace, this`requestTimeout, this`done, this`forcedScore, this`current, registry
      ensures registry.Valid() && Recorded() && trace.Some? && Alternates(modelIoEvents, |outputs|, false)
      ensures done && current.None? && forcedScore == Some(0.0) && requestTimeout
      ensures trace.value.samples == old(trace).value.samples
      ensures EndsWithOutput(old(modelIoEvents)) && modelIoEvents == MarkTimeout(old(modelIoEvents))
      ensures Settled(old(registry.State()), registry.State())
      ensures trace.value.conv.messages == old(trace).value.conv.messages + [T.Message(T.UserRole, "request timeout")]
    {
      requestTimeout := true;
      AttachRequestTimeout(|outputs| - 1);
      AddFeedback("request timeout");
      CloseSessionAndTerminate(None, 504, Some(0.0), beforeClose);
    }

    /** The next request's prompt becomes the observation, unless it no longer fits. */
    method NextObservation(request: R.RequestId, choices: StepChoices)
      returns (finished: bool, reward: real)
      requires registry.Valid() && Recorded() && trace.Some? && Alternates(modelIoEvents, |outputs|, false)
      requires Unanswered(registry.State(), sessionId) <= {request} && sessionId in registry.sessions
      requires Open(registry.State(), sessionId, request) && !done && |outputs| < maxModelCalls
      modifies this`done, this`forcedScore, this`current, this`trace, this`modelIoEvents, registry
      ensures Valid() && (if finished then done else current.Some?)
      ensures Scored(finished, choices.verifierScore, reward)
      ensures forcedScore == if finished then Some(0.0) else old(forcedScore)
      ensures finished <==> |choices.nextPrompt.inputIds| > maxLength
      ensures trace.Some? && trace.value.samples == old(trace).value.samples
      ensures trace == if finished then old(trace) else Rendered(old(trace).value, choices.nextPrompt)
      ensures finished ==> modelIoEvents == old(modelIoEvents) && forcedScore == Some(0.0)
      ensures !finished ==>
                current == Some(request) && modelIoEvents == old(modelIoEvents) + [ModelInput(|outputs|, request)]
      ensures Settled(old(registry.State()), registry.State())
      ensures finished ==>
                Replied(registry.State(), request, R.Response(413, "openai_proxy_error"),
                  old(Waiting(registry.State(), request)))
    {
      finished := BuildObservation(request, choices.nextPrompt);
      if finished {
        reward := CloseAndFinish(Some(request), 413, Some(0.0), choices.beforeClose, choices.verifierScore);
      } else {
        reward := 0.0;
        current := Some(request);
      }
    }

    /** The same pending request is rendered again with feedback, while calls are left. */
    method RetryAfterInvalidToolCall(action: T.GenerationOutput, choices: StepChoices)
      returns (finished: bool, reward: real)
      requires Valid() && current.Some?
      requires T.FromEngine(trace.value.conv.gen, action) && T.AssistantAccepted(trace.value, action)
      modifies this, registry
      ensures Valid() && (if finished then done else current.Some?)
      ensures Scored(finished, choices.verifierScore, reward)
      ensures forcedScore == if finished && |outputs| < maxModelCalls then Some(0.0) else old(forcedScore)
      ensures outputs == old(outputs) + [action]
      ensures trace.Some? && old(trace).value.samples <= trace.value.samples
      ensures modelIoEvents == old(modelIoEvents) + CallEvents(|old(outputs)|, true, false, current)
      ensures invalidToolCalls == old(invalidToolCalls) + 1
      ensures finished <==> |outputs| >= maxModelCalls || |choices.nextPrompt.inputIds| > maxLength
      ensures !finished ==> current == old(current)
      ensures normalFinish == old(normalFinish) && requestTimeout == old(requestTimeout)
      ensures Settled(old(registry.State()), registry.State())
      ensures |outputs| >= maxModelCalls ==>
                Replied(registry.State(), old(current).value, R.Response(400, "openai_proxy_error"),
                  old(Waiting(registry.State(), current.value)))
      ensures |outputs| < maxModelCalls && finished ==>
                Replied(registry.State(), old(current).value, R.Response(413, "openai_proxy_error"),
                  old(Waiting(registry.State(), current.value)) &&
                  R.Expire(old(current).value) !in choices.beforeRespond)
    {
      hide R.Inv, T.Inv, Unanswered, Alternates, CallEvents, T.FromEngine, T.AssistantAccepted;
      hide Settled, Open, Waiting, Replied, T.AppendAssistantTurn;
      ghost var before, call := modelIoEvents, |outputs|;
      var request := current.value;
      CallAppended(before, call, true, None);
      CallAppended(before, call, true, Some(request));
      invalidToolCalls := invalidToolCalls + 1;
      RecordAnswer(action, true);
      finished, reward := AskAgain(request, choices);
    }

    /** After an invalid call is recorded: an error for the request when no calls are left, else another rendering. */
    method AskAgain(request: R.RequestId, choices: StepChoices)
      returns (finished: bool, reward: real)
      requires registry.Valid() && Recorded() && trace.Some? && Alternates(modelIoEvents, |outputs|, false)
      requires Unanswered(registry.State(), sessionId) <= {request} && sessionId in registry.sessions
      requires Open(registry.State(), sessionId, request) && !done
      modifies this`done, this`forcedScore, this`current, this`trace, this`modelIoEvents, registry
      ensures Valid() && (if finished then done && current.None? else current == Some(request))
      ensures Scored(finished, choices.verifierScore, reward)
      ensures forcedScore == if finished && |outputs| < maxModelCalls then Some(0.0) else old(forcedScore)
      ensures finished <==> |outputs| >= maxModelCalls || |choices.nextPrompt.inputIds| > maxLength
      ensures trace.Some? && trace.value.samples == old(trace).value.samples
      ensures modelIoEvents == if finished then old(modelIoEvents)
              else old(modelIoEvents) + [ModelInput(|outputs|, request)]
      ensures Settled(old(registry.State()), registry.State())
      ensures |outputs| >= maxModelCalls ==>
                Replied(registry.State(), request, R.Response(400, "openai_proxy_error"),
                  old(Waiting(registry.State(), request)))
      ensures |outputs| < maxModelCalls && finished ==>
                Replied(registry.State(), request, R.Response(413, "openai_proxy_error"),
                old(Waiting(registry.State(), request)) && R.Expire(request) !in choices.beforeRespond)
    {
      hide R.Inv, T.Inv, Unanswered, Alternates, Settled, Open, Waiting, Replied;
      if |outputs| >= maxModelCalls {
        reward := CloseAndFinish(Some(request), 400, None, choices.beforeClose, choices.verifierScore);
        finished := true;
      } else {
        finished, reward := RenderAgain(request, choices);
      }
    }

    /** Feedback to the model and a fresh rendering of the same request. */
    method RenderAgain(request: R.RequestId, choices: StepChoices)
      returns (finished: bool, reward: real)
      requires registry.Valid() && Recorded() && trace.Some? && Alternates(modelIoEvents, |outputs|, false)
      requires Unanswered(registry.State(), sessionId) <= {request} && sessionId in registry.sessions
      requires Open(registry.State(), sessionId, request) && !done && |outputs| < maxModelCalls
      modifies this`done, this`forcedScore, this`current, this`trace, this`modelIoEvents, registry
      ensures Valid() && (if finished then done else current == Some(request))
      ensures Scored(finished, choices.verifierScore, reward)
      ensures forcedScore == if finished then Some(0.0) else old(forcedScore)
      ensures finished <==> |choices.nextPrompt.inputIds| > maxLength
      ensures trace.Some? && trace.value.samples == old(trace).value.samples
      ensures finished ==>
                var feedback := T.Message(T.UserRole, "invalid tool call");
                trace.value.conv.messages == old(trace).value.conv.messages + [feedback]
      ensures modelIoEvents == if finished then old(modelIoEvents)
              else old(modelIoEvents) + [ModelInput(|outputs|, request)]
      ensures Settled(old(registry.State()), registry.State())
      ensures finished ==> Replied(registry.State(), request, R.Response(413, "openai_proxy_error"),
                old(Waiting(registry.State(), request)) && R.Expire(request) !in choices.beforeRespond)
    {
      hide R.Inv, T.Inv, Settled, Unanswered, Alternates, OnlyDeadlines, Waiting;
      AddFeedback("invalid tool call");
      ghost var start := registry.State();
      Interleave(choices.beforeRespond);
      ghost var before := registry.State();
      WaitsUnlessExpired(start, before, sessionId, choices.beforeRespond, request);
      finished, reward := NextObservation(request, choices);
      SettledTrans(start, before, registry.State());
    }

    /** Why a rollout of `calls` calls may end with the step of these choices, whose output is the last log entry. */
    predicate MayEnd(choices: StepChoices, calls: nat, lastEvent: IoEvent) {
      || calls >= maxModelCalls
      || |choices.nextPrompt.inputIds| > maxLength
      || (!choices.invalidTool && (choices.normalFinish || choices.runtimeDone))
      || (!choices.invalidTool && lastEvent.ModelOutput? && lastEvent.requestTimeout)
    }

    lemma LastOutput(events: seq<IoEvent>, call: nat, invalidTool: bool, timedOut: bool)
      ensures var all := events + CallEvents(call, invalidTool, timedOut, None);
        all != [] && all[|all| - 1] == ModelOutput(call, invalidTool, timedOut)
    {
    }

    /** A step of a rollout: the calls so far stay served, and the new one is. */
    method OneStep(action: T.GenerationOutput, choices: StepChoices) returns (finished: bool, reward: real)
      requires Valid() && current.Some? && CallsServed(registry.State(), modelIoEvents, outputs)
      requires T.FromEngine(trace.value.conv.gen, action) && T.AssistantAccepted(trace.value, action)
      modifies this, registry
      ensures Valid() && (if finished then done else current.Some?)
      ensures finished ==> Unanswered(registry.State(), sessionId) == {} && trace.Some?
      ensures Scored(finished, choices.verifierScore, reward)
      ensures |outputs| == |old(outputs)| + 1 && (|outputs| >= maxModelCalls ==> finished)
      ensures CallsServed(registry.State(), modelIoEvents, outputs)
      ensures finished ==> modelIoEvents != [] && MayEnd(choices, |outputs|, modelIoEvents[|modelIoEvents| - 1])
    {
      hide T.Inv, CallEvents, T.FromEngine, T.AssistantAccepted, Unanswered, NextRequest;
      hide R.QueueInv, R.LiveInv, Settled, Replied, Served, Waiting, CallServed, CallsServed, Open;
      ghost var before, events, answered := registry.State(), modelIoEvents, outputs;
      var request := current.value;
      ghost var waiting := Waiting(before, request) && R.Expire(request) !in choices.beforeRespond;
      var timedOut;
      finished, timedOut, reward := Step(action, choices);
      LastOutput(events, |answered|, choices.invalidTool, timedOut);
      if !choices.invalidTool {
        RepliedIsServed(registry.State(), request, R.Response(200, action.text), waiting);
      }
      OneCallMore(before, registry.State(), events, answered, action, choices.invalidTool, timedOut, current);
    }

    /**
     A whole rollout: start, then answer every observation until a step finishes. `engine` gives the answer to call
     number `call` on a trace, `choices` everything else about that step.
     */
    method Rollout(attempts: seq<Attempt>, prompt: Prompt, engine: (nat, T.Trace) -> T.GenerationOutput,
            choices: nat -> StepChoices)
      returns (outcome: Outcome, score: real)
      requires Valid() && !done && current.None? && outputs == [] && modelIoEvents == []
      requires sessionId !in registry.sessions
      requires |prompt.inputIds| <= maxLength
      requires forall call, t :: T.Inv(t) ==> T.FromEngine(t.conv.gen, engine(call, t))
      modifies this, registry
      ensures Valid()
      ensures !outcome.AssertionFailed? ==>
              Unanswered(registry.State(), sessionId) == {} && sessionId !in registry.sessions
      ensures outcome.AssertionFailed? ==>
                current.Some? && !T.AssistantAccepted(trace.value, engine(|outputs|, trace.value))
      ensures outcome.Finished? ==> done && 1 <= |outputs| <= if maxModelCalls == 0 then 1 else maxModelCalls
      ensures outcome.Finished? ==> trace.Some? && |trace.value.samples| == |outputs| && T.Inv(trace.value)
      ensures outcome.Finished? ==> Alternates(modelIoEvents, |outputs|, false)
      ensures CallsServed(registry.State(), modelIoEvents, outputs)
      ensures outcome.Finished? ==>
                modelIoEvents != [] && MayEnd(choices(|outputs| - 1), |outputs|, modelIoEvents[|modelIoEvents| - 1])
      ensures outcome.Finished? ==>
                score == if forcedScore.Some? then forcedScore.value else choices(|outputs| - 1).verifierScore
      ensures outcome.NotStarted? <==> LaunchOutcome(old(registry.State()), attempts).1.None?
    {
      hide MayEnd, LaunchOutcome, R.QueueInv, R.LiveInv, Open, T.Inv, Alternates, CallEvents, CallsServed;
      hide T.FromEngine, T.AssistantAccepted;
      var started := Start(attempts, prompt);
      if !started {
        NoCallYet(registry.State(), modelIoEvents);
        return NotStarted, 0.0;
      }
      var finished := false;
      score := 0.0;
      NoCallYet(registry.State(), modelIoEvents);
      while !finished
        invariant CallsServed(registry.State(), modelIoEvents, outputs) && (finished ==> |outputs| > 0)
        invariant finished ==> Scored(true, choices(|outputs| - 1).verifierScore, score)
        invariant finished ==>
                    && modelIoEvents != []
                    && MayEnd(choices(|outputs| - 1), |outputs|, modelIoEvents[|modelIoEvents| - 1])
        invariant Valid() && if finished then done && |outputs| > 0 else current.Some?
        invariant finished ==> Unanswered(registry.State(), sessionId) == {} && trace.Some?
        invariant |outputs| <= if maxModelCalls == 0 then 1 else maxModelCalls
        decreases !finished, CallsLeft()
      {
        var action := engine(|outputs|, trace.value);
        if !T.AssistantAccepted(trace.value, action) {
          return AssertionFailed, 0.0;
        }
        finished, score := OneStep(action, choices(|outputs|));
      }
      outcome := Finished;
    }
  }
}
