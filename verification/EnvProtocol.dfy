/** What one environment may rely on while other coroutines use the registry. */
module EnvProtocol {
  import opened Basics
  import opened RegistryModel

  /** An event of anyone but the environment that owns `sid`: submitters of any session, and the owners of others. */
  predicate Foreign(sessions: map<SessionId, QueueId>, sessionOf: seq<SessionId>, sid: SessionId, e: Event) {
    match e
    case Create(session) => session != sid
    case Close(session) => session != sid
    case Submit(_) => true
    case Take(q) => sid in sessions ==> q != sessions[sid]
    case Respond(request, _) => request < |sessionOf| ==> sessionOf[request] != sid
    case Expire(_) => true
    case Resume(_, _) => true
  }

  /** Other coroutines run for a while; events that only the owner of `sid` may cause do not happen. */
  ghost function RunOthers(s: State, sid: SessionId, events: seq<Event>): State {
    if events == [] then s
    else
      var before, e := RunOthers(s, sid, events[..|events| - 1]), events[|events| - 1];
      if Foreign(before.sessions, before.sessionOf, sid, e) then Apply(before, e) else before
  }

  /** One read of the session's queue, if it holds anything: a dead request is dropped. */
  ghost function TakeNext(s: State, sid: SessionId): (State, Option<RequestId>) {
    if sid in s.sessions && s.sessions[sid] < |s.queues| && s.queues[s.sessions[sid]] != [] then
      var q := s.sessions[sid];
      var head := s.queues[q][0];
      (TakeHead(s, q), if head in s.requests then Some(head) else None)
    else (s, None)
  }

  /** Waiting for a request: others run, one read, and again until a live request comes or the wait ends. */
  ghost function Await(s: State, sid: SessionId, rounds: seq<seq<Event>>): (State, Option<RequestId>)
    decreases |rounds|
  {
    if rounds == [] then (s, None)
    else
      var (next, r) := TakeNext(RunOthers(s, sid, rounds[0]), sid);
      if r.Some? then (next, r) else Await(next, sid, rounds[1..])
  }

  /** Requests of the session that were handed to its environment and are still waiting for an answer. */
  ghost function Unanswered(s: State, sid: SessionId): set<RequestId>
    requires Shape(s)
  {
    set r | r in s.requests && s.sessionOf[r] == sid && r in s.delivered[s.queueOf[r]]
  }

  ghost predicate SameSession(s: State, s': State, sid: SessionId) {
    && (sid in s.sessions <==> sid in s'.sessions)
    && (sid in s.sessions ==> s'.sessions[sid] == s.sessions[sid])
  }

  /** The request was submitted to the session and no answer has reached it: it waits, or its deadline has passed. */
  ghost predicate Open(s: State, sid: SessionId, r: RequestId) {
    r < |s.futures| && r < |s.sessionOf| && s.sessionOf[r] == sid && !s.futures[r].Resolved?
  }

  ghost predicate Waiting(s: State, r: RequestId) {
    r < |s.futures| && s.futures[r].Pending?
  }

  /** What an answer does: a request still waiting gets the response, for any other the deadline has passed. */
  ghost predicate Replied(s: State, r: RequestId, response: Response, waiting: bool) {
    r < |s.futures| && s.futures[r] == if waiting then Resolved(response) else Cancelled
  }

  /** Answers and passed deadlines are never taken back. */
  ghost predicate Settled(s: State, s': State) {
    && |s.futures| <= |s'.futures|
    && forall r :: 0 <= r < |s.futures| && !s.futures[r].Pending? ==> s'.futures[r] == s.futures[r]
  }

  /** Nothing was answered or closed on the session's behalf. */
  ghost predicate Undisturbed(s: State, s': State, sid: SessionId) {
    SameSession(s, s', sid) && Settled(s, s') && forall r :: Open(s, sid, r) ==> Open(s', sid, r)
  }

  /** Of the session's waiting requests exactly those whose deadline is among the events stopped waiting. */
  ghost predicate OnlyDeadlines(s: State, s': State, sid: SessionId, events: seq<Event>) {
    forall r :: Open(s, sid, r) && Waiting(s, r) ==> (Waiting(s', r) <==> Expire(r) !in events)
  }

  lemma ApplySettles(s: State, e: Event)
    requires Inv(s)
    ensures Settled(s, Apply(s, e))
  {
    ApplyExtends(s, e);
  }

  lemma SettledTrans(s: State, s': State, s'': State)
    requires Settled(s, s') && Settled(s', s'')
    ensures Settled(s, s'')
  {
  }

  lemma RepliedStays(s: State, s': State, r: RequestId, response: Response, waiting: bool)
    requires Replied(s, r, response, waiting) && Settled(s, s')
    ensures Replied(s', r, response, waiting)
  {
  }

  lemma UndisturbedTrans(s: State, s': State, s'': State, sid: SessionId)
    requires Undisturbed(s, s', sid) && Undisturbed(s', s'', sid)
    ensures Undisturbed(s, s'', sid)
  {
    hide Open;
    SettledTrans(s, s', s'');
  }

  lemma DeadlinesSkip(s: State, s': State, sid: SessionId, events: seq<Event>, e: Event)
    requires OnlyDeadlines(s, s', sid, events) && !e.Expire?
    ensures OnlyDeadlines(s, s', sid, events + [e])
  {
  }

  lemma DeadlinesStep(s: State, s': State, s'': State, sid: SessionId, events: seq<Event>, e: Event)
    requires OnlyDeadlines(s, s', sid, events) && Undisturbed(s, s', sid)
    requires OnlyDeadlines(s', s'', sid, [e]) && Undisturbed(s', s'', sid)
    ensures OnlyDeadlines(s, s'', sid, events + [e])
  {
    forall r | Open(s, sid, r) && Waiting(s, r)
      ensures Waiting(s'', r) <==> Expire(r) !in events + [e]
    {
      assert Open(s', sid, r);
    }
  }

  lemma WaitsUnlessExpired(s: State, s': State, sid: SessionId, events: seq<Event>, r: RequestId)
    requires Open(s, sid, r) && Undisturbed(s, s', sid) && OnlyDeadlines(s, s', sid, events)
    ensures Waiting(s', r) <==> Waiting(s, r) && Expire(r) !in events
  {
  }

  /** The response reached the request or its deadline had passed; its submitter returned that or the timeout. */
  ghost predicate Served(s: State, r: RequestId, response: Response) {
    && (Replied(s, r, response, true) || Replied(s, r, response, false))
    && (r in s.outcomes ==> s.outcomes[r] == response || s.outcomes[r] == TIMED_OUT)
  }

  lemma RepliedIsServed(s: State, r: RequestId, response: Response, waiting: bool)
    requires Inv(s) && Replied(s, r, response, waiting)
    ensures Served(s, r, response)
  {
    assert LiveInv(s, r);
  }

  lemma ServedStays(s: State, s': State, r: RequestId, response: Response)
    requires Inv(s') && Settled(s, s') && Served(s, r, response)
    ensures Served(s', r, response)
  {
    assert LiveInv(s', r);
  }

  lemma LiveIsOpen(s: State, sid: SessionId, r: RequestId)
    requires Inv(s) && r in s.requests && s.sessionOf[r] == sid
    ensures Open(s, sid, r)
  {
    assert LiveInv(s, r);
  }

  lemma ForeignUndisturbed(s: State, sid: SessionId, e: Event)
    requires Inv(s) && Foreign(s.sessions, s.sessionOf, sid, e)
    ensures Undisturbed(s, Apply(s, e), sid) && OnlyDeadlines(s, Apply(s, e), sid, [e])
  {
    ForeignKeepsSession(s, sid, e);
    ApplySettles(s, e);
    ForeignFutures(s, sid, e);
  }

  lemma ForeignFutures(s: State, sid: SessionId, e: Event)
    requires Inv(s) && Foreign(s.sessions, s.sessionOf, sid, e)
    ensures forall r :: Open(s, sid, r) ==> Open(Apply(s, e), sid, r)
    ensures OnlyDeadlines(s, Apply(s, e), sid, [e])
  {
    hide QueueInv;
    forall r | Open(s, sid, r)
      ensures Open(Apply(s, e), sid, r)
      ensures Waiting(s, r) ==> (Waiting(Apply(s, e), r) <==> Expire(r) !in [e])
    {
      assert LiveInv(s, r);
    }
  }

  lemma ForeignKeepsSession(s: State, sid: SessionId, e: Event)
    requires Shape(s) && Foreign(s.sessions, s.sessionOf, sid, e)
    ensures SameSession(s, Apply(s, e), sid)
  {
  }

  lemma ForeignDelivers(s: State, sid: SessionId, e: Event, r: RequestId)
    requires Inv(s) && Inv(Apply(s, e)) && Foreign(s.sessions, s.sessionOf, sid, e)
    requires r in Unanswered(Apply(s, e), sid)
    ensures r in Unanswered(s, sid)
  {
    assert LiveInv(Apply(s, e), r);
    if r < |s.futures| {
      assert LiveInv(s, r);
    } else {
      FreshNotDelivered(s, e, r);
    }
  }

  lemma ForeignKeeps(s: State, sid: SessionId, e: Event)
    requires Inv(s) && Foreign(s.sessions, s.sessionOf, sid, e)
    ensures Inv(Apply(s, e)) && SameSession(s, Apply(s, e), sid)
    ensures Unanswered(Apply(s, e), sid) <= Unanswered(s, sid)
  {
    hide Unanswered, Apply;
    ApplyKeepsInv(s, e);
    ForeignKeepsSession(s, sid, e);
    forall r | r in Unanswered(Apply(s, e), sid)
      ensures r in Unanswered(s, sid)
    {
      ForeignDelivers(s, sid, e, r);
    }
  }

  /** A request submitted by this very event has not been delivered. */
  lemma FreshNotDelivered(s: State, e: Event, r: RequestId)
    requires Inv(s) && Inv(Apply(s, e)) && |s.futures| <= r < |Apply(s, e).futures|
    ensures r !in Apply(s, e).delivered[Apply(s, e).queueOf[r]]
  {
    assert e.Submit?;
    var q := Apply(s, e).queueOf[r];
    assert QueueInv(s, q);
    assert forall x :: x in s.delivered[q] ==> x in s.delivered[q] + s.queues[q];
  }

  /** Taking the head of the session's own queue adds at most that request to the unanswered ones. */
  lemma OwnTake(s: State, sid: SessionId)
    requires Inv(s) && sid in s.sessions && s.queues[s.sessions[sid]] != []
    ensures var q := s.sessions[sid];
      var s' := TakeHead(s, q);
      && Inv(s') && Undisturbed(s, s', sid)
      && Unanswered(s', sid) <= Unanswered(s, sid) + (if s.queues[q][0] in s.requests then {s.queues[q][0]} else {})
      && s.queues[q][0] < |s.sessionOf| && s.sessionOf[s.queues[q][0]] == sid
  {
    var q := s.sessions[sid];
    TakeKeepsInv(s, q);
    assert QueueInv(s, q);
    assert s.queues[q][0] in s.delivered[q] + s.queues[q];
  }

  lemma OwnAnswer(s: State, sid: SessionId, r: RequestId, response: Response)
    requires Inv(s)
    ensures var s' := Answer(s, r, response);
      && Inv(s') && SameSession(s, s', sid) && Settled(s, s')
      && Unanswered(s', sid) <= Unanswered(s, sid) - {r} && r !in s'.requests
      && (Open(s, sid, r) ==> Replied(s', r, response, Waiting(s, r)))
  {
    AnswerKeepsInv(s, r, response);
    if r < |s.futures| {
      assert LiveInv(s, r);
    }
  }

  lemma OwnClose(s: State, sid: SessionId)
    requires Inv(s)
    ensures var s' := CloseSession(s, sid);
      Inv(s') && sid !in s'.sessions && Unanswered(s', sid) == {} && Settled(s, s')
  {
    CloseKeepsInv(s, sid);
    ApplySettles(s, Close(sid));
    CloseSettlesSession(s, sid);
  }

  lemma ClosedHasNone(s: State, sid: SessionId)
    requires Inv(s) && sid !in s.sessions
    ensures Unanswered(s, sid) == {}
  {
    forall r | r in s.requests
      ensures s.sessionOf[r] != sid
    {
      assert LiveInv(s, r);
    }
  }

  lemma OwnCreate(s: State, sid: SessionId)
    requires Inv(s) && sid !in s.sessions
    ensures var s' := CreateSession(s, sid);
      Inv(s') && sid in s'.sessions && Unanswered(s', sid) == {}
  {
    CreateKeepsInv(s, sid);
    ClosedHasNone(s, sid);
    var s' := CreateSession(s, sid);
    forall r | r in s.requests
      ensures s.sessionOf[r] != sid && r in s'.requests && s'.delivered[s'.queueOf[r]] == s.delivered[s.queueOf[r]]
    {
      assert LiveInv(s, r);
    }
  }
}
