/**
 The OpenAI proxy session registry as atomic steps of its asyncio coroutines
 (axrl/openai_proxy/server.py:71-161). A coroutine runs without interference between two suspension points,
 so every event below is one such stretch; any interleaving is a sequence of events.
 */
module RegistryModel {

  type SessionId = string
  type RequestId = nat
  type QueueId = nat

  datatype Response = Response(status: int, body: string)

  datatype Future = Pending | Resolved(response: Response) | Cancelled

  /** Requests are numbered in submission order; queue ids stand for the identity of queue objects. */
  datatype State = State(
    sessions: map<SessionId, QueueId>,
    closed: set<SessionId>,
    requests: set<RequestId>,
    queues: seq<seq<RequestId>>,
    delivered: seq<seq<RequestId>>,
    owners: seq<SessionId>,
    sessionOf: seq<SessionId>,
    queueOf: seq<QueueId>,
    futures: seq<Future>,
    outcomes: map<RequestId, Response>)

  const INITIAL := State(map[], {}, {}, [], [], [], [], [], [], map[])

  datatype Event =
    | Create(session: SessionId)
    | Close(session: SessionId)
    | Submit(session: SessionId)
    | Take(queue: QueueId)
    | Respond(request: RequestId, response: Response)
    | Expire(request: RequestId)
    | Resume(request: RequestId, late: bool)

  const CLOSED := Response(499, "OpenAI proxy session was closed")
  const TIMED_OUT := Response(504, "Timed out waiting for rollout response")

  function CreateSession(s: State, session: SessionId): State {
    if session in s.sessions then s
    else s.(sessions := s.sessions[session := |s.queues|],
            queues := s.queues + [[]],
            delivered := s.delivered + [[]],
            owners := s.owners + [session],
            closed := s.closed - {session})
  }

  /** Popping a request and, if its future is still open, resolving it. Unknown requests are ignored. */
  function Answer(s: State, request: RequestId, response: Response): State {
    if request !in s.requests then s
    else
      s.(requests := s.requests - {request},
         futures := if request < |s.futures| && s.futures[request].Pending?
           then s.futures[request := Resolved(response)] else s.futures)
  }

  /** All requests of a session answered with "closed", its queue emptied. */
  function CloseSession(s: State, session: SessionId): State {
    s.(closed := s.closed + {session},
       sessions := s.sessions - {session},
       requests := (set r | r in s.requests && !(r < |s.sessionOf| && s.sessionOf[r] == session)),
       queues := if session in s.sessions && s.sessions[session] < |s.queues|
         then s.queues[s.sessions[session] := []] else s.queues,
       futures := seq(|s.futures|, r requires 0 <= r < |s.futures| =>
                    if r in s.requests && r < |s.sessionOf| && s.sessionOf[r] == session && s.futures[r].Pending?
                    then Resolved(CLOSED) else s.futures[r]))
  }

  /** Closed and unknown sessions are refused with 404 and leave no trace. */
  function SubmitRequest(s: State, session: SessionId): State {
    if session in s.closed || session !in s.sessions || s.sessions[session] >= |s.queues| then s
    else
      var q := s.sessions[session];
      s.(requests := s.requests + {|s.futures|},
         queues := s.queues[q := s.queues[q] + [|s.futures|]],
         sessionOf := s.sessionOf + [session],
         queueOf := s.queueOf + [q],
         futures := s.futures + [Pending])
  }

  /** One `queue.get()` of a waiter holding queue `q`: a request that is no longer pending is dropped. */
  function TakeHead(s: State, q: QueueId): State {
    if q >= |s.queues| || q >= |s.delivered| || s.queues[q] == [] then s
    else
      var request := s.queues[q][0];
      s.(queues := s.queues[q := s.queues[q][1..]],
         delivered := if request in s.requests then s.delivered[q := s.delivered[q] + [request]] else s.delivered)
  }

  /** The submitter's deadline passes: the awaited future is cancelled. */
  function ExpireFuture(s: State, request: RequestId): State {
    if request < |s.futures| && s.futures[request].Pending? && request !in s.outcomes
    then s.(futures := s.futures[request := Cancelled])
    else s
  }

  /** The submitter runs again. `late` stands for a deadline that passed while the result was already set. */
  function ResumeSubmit(s: State, request: RequestId, late: bool): State {
    if request >= |s.futures| || request in s.outcomes || s.futures[request].Pending? then s
    else if s.futures[request].Resolved? && !late then
      s.(outcomes := s.outcomes[request := s.futures[request].response])
    else
      s.(requests := s.requests - {request}, outcomes := s.outcomes[request := TIMED_OUT])
  }

  function Apply(s: State, e: Event): State {
    match e
    case Create(session) => CreateSession(s, session)
    case Close(session) => CloseSession(s, session)
    case Submit(session) => SubmitRequest(s, session)
    case Take(q) => TakeHead(s, q)
    case Respond(request, response) => Answer(s, request, response)
    case Expire(request) => ExpireFuture(s, request)
    case Resume(request, late) => ResumeSubmit(s, request, late)
  }

  function Run(s: State, events: seq<Event>): State
    decreases events
  {
    if events == [] then s else Run(Apply(s, events[0]), events[1..])
  }

  // The invariant.

  ghost predicate Increasing(xs: seq<RequestId>) {
    forall i, j :: 0 <= i < j < |xs| ==> xs[i] < xs[j]
  }

  ghost predicate Shape(s: State) {
    && |s.delivered| == |s.queues| == |s.owners|
    && |s.sessionOf| == |s.queueOf| == |s.futures|
    && (forall session :: session in s.sessions ==>
      s.sessions[session] < |s.queues| && s.owners[s.sessions[session]] == session)
    && (forall r :: r in s.requests ==> r < |s.futures|)
    && (forall r :: r in s.outcomes ==> r < |s.futures|)
    && (forall r :: 0 <= r < |s.queueOf| ==> s.queueOf[r] < |s.queues| && s.owners[s.queueOf[r]] == s.sessionOf[r])
  }

  /** A queue hands out its requests in submission order, each once; a queue no session owns is empty. */
  ghost predicate QueueInv(s: State, q: nat)
    requires Shape(s) && q < |s.queues|
  {
    && Increasing(s.delivered[q] + s.queues[q])
    && (forall r :: r in s.delivered[q] + s.queues[q] ==> r < |s.futures| && s.queueOf[r] == q)
    && (s.queues[q] != [] ==> s.owners[q] in s.sessions && s.sessions[s.owners[q]] == q)
  }

  /** A live request belongs to an open session, waits in that session's queue or was delivered from it. */
  ghost predicate LiveInv(s: State, r: RequestId)
    requires Shape(s) && r < |s.futures|
  {
    && (r in s.requests ==>
          && s.sessionOf[r] in s.sessions && s.queueOf[r] == s.sessions[s.sessionOf[r]]
          && (r in s.queues[s.queueOf[r]] || r in s.delivered[s.queueOf[r]])
          && !s.futures[r].Resolved? && r !in s.outcomes)
    && (s.futures[r].Pending? ==> r in s.requests)
    && (r in s.outcomes ==> s.outcomes[r] == TIMED_OUT || s.futures[r] == Resolved(s.outcomes[r]))
  }

  ghost predicate Inv(s: State) {
    && Shape(s)
    && (forall session :: session in s.sessions ==> session !in s.closed)
    && (forall q :: 0 <= q < |s.queues| ==> QueueInv(s, q))
    && (forall r :: 0 <= r < |s.futures| ==> LiveInv(s, r))
  }

  lemma IncreasingSnoc(xs: seq<RequestId>, x: RequestId)
    requires Increasing(xs) && forall y :: y in xs ==> y < x
    ensures Increasing(xs + [x])
  {
    forall i, j | 0 <= i < j < |xs + [x]|
      ensures (xs + [x])[i] < (xs + [x])[j]
    {
      assert xs[i] in xs;
    }
  }

  /** Dropping one element out of the middle. */
  lemma IncreasingDrop(xs: seq<RequestId>, y: RequestId, zs: seq<RequestId>)
    requires Increasing(xs + ([y] + zs))
    ensures Increasing(xs + zs)
  {
    var all, less := xs + ([y] + zs), xs + zs;
    forall i, j | 0 <= i < j < |less|
      ensures less[i] < less[j]
    {
      var i', j' := if i < |xs| then i else i + 1, if j < |xs| then j else j + 1;
      assert less[i] == all[i'] && less[j] == all[j'];
    }
  }

  lemma IncreasingPrefix(xs: seq<RequestId>, zs: seq<RequestId>)
    requires Increasing(xs + zs)
    ensures Increasing(xs + [])
  {
    forall i, j | 0 <= i < j < |xs|
      ensures xs[i] < xs[j]
    {
      assert (xs + zs)[i] < (xs + zs)[j];
    }
    assert xs + [] == xs;
  }

  lemma CreateKeepsInv(s: State, session: SessionId)
    requires Inv(s)
    ensures Inv(CreateSession(s, session))
  {
    var s' := CreateSession(s, session);
    if session !in s.sessions {
      forall q | 0 <= q < |s'.queues|
        ensures QueueInv(s', q)
      {
        if q < |s.queues| {
          assert QueueInv(s, q);
        }
      }
      forall r | 0 <= r < |s'.futures|
        ensures LiveInv(s', r)
      {
        assert LiveInv(s, r);
      }
    }
  }

  lemma AnswerKeepsInv(s: State, request: RequestId, response: Response)
    requires Inv(s)
    ensures Inv(Answer(s, request, response))
  {
    var s' := Answer(s, request, response);
    forall q | 0 <= q < |s'.queues|
      ensures QueueInv(s', q)
    {
      assert QueueInv(s, q);
    }
    forall r | 0 <= r < |s'.futures|
      ensures LiveInv(s', r)
    {
      assert LiveInv(s, r);
    }
  }

  lemma CloseKeepsInv(s: State, session: SessionId)
    requires Inv(s)
    ensures Inv(CloseSession(s, session))
  {
    var s' := CloseSession(s, session);
    forall q | 0 <= q < |s'.queues|
      ensures QueueInv(s', q)
    {
      assert QueueInv(s, q);
      if s'.queues[q] == [] {
        IncreasingPrefix(s.delivered[q], s.queues[q]);
        assert forall r :: r in s.delivered[q] + [] ==> r in s.delivered[q] + s.queues[q];
      }
    }
    forall r | 0 <= r < |s'.futures|
      ensures LiveInv(s', r)
    {
      assert LiveInv(s, r);
    }
  }

  lemma SubmitKeepsInv(s: State, session: SessionId)
    requires Inv(s)
    ensures Inv(SubmitRequest(s, session))
  {
    var s' := SubmitRequest(s, session);
    if s' != s {
      var mine, fresh' := s.sessions[session], |s.futures|;
      forall q | 0 <= q < |s'.queues|
        ensures QueueInv(s', q)
      {
        assert QueueInv(s, q);
        if q == mine {
          assert s'.delivered[q] + s'.queues[q] == (s.delivered[q] + s.queues[q]) + [fresh'];
          IncreasingSnoc(s.delivered[q] + s.queues[q], fresh');
        }
      }
      forall r | 0 <= r < |s'.futures|
        ensures LiveInv(s', r)
      {
        if r < fresh' {
          assert LiveInv(s, r);
        } else {
          assert s'.queues[mine][|s.queues[mine]|] == r;
        }
      }
    }
  }

  lemma TakeKeepsInv(s: State, q: QueueId)
    requires Inv(s)
    ensures Inv(TakeHead(s, q))
  {
    var s' := TakeHead(s, q);
    if s' != s {
      var head := s.queues[q][0];
      assert s.queues[q] == [head] + s'.queues[q];
      forall k | 0 <= k < |s'.queues|
        ensures QueueInv(s', k)
      {
        assert QueueInv(s, k);
        if k == q {
          var all := s.delivered[q] + s.queues[q];
          if head in s.requests {
            assert s'.delivered[q] + s'.queues[q] == all;
          } else {
            IncreasingDrop(s.delivered[q], head, s'.queues[q]);
            assert forall r :: r in s.delivered[q] + s'.queues[q] ==> r in all;
          }
        }
      }
      forall r | 0 <= r < |s'.futures|
        ensures LiveInv(s', r)
      {
        assert LiveInv(s, r);
        if r in s.requests && s.queueOf[r] == q && r in s.queues[q] && r != head {
          assert r in s'.queues[q];
        }
      }
    }
  }

  lemma ExpireKeepsInv(s: State, request: RequestId)
    requires Inv(s)
    ensures Inv(ExpireFuture(s, request))
  {
    var s' := ExpireFuture(s, request);
    forall q | 0 <= q < |s'.queues|
      ensures QueueInv(s', q)
    {
      assert QueueInv(s, q);
    }
    forall r | 0 <= r < |s'.futures|
      ensures LiveInv(s', r)
    {
      assert LiveInv(s, r);
    }
  }

  lemma ResumeKeepsInv(s: State, request: RequestId, late: bool)
    requires Inv(s)
    ensures Inv(ResumeSubmit(s, request, late))
  {
    hide Increasing;
    var s' := ResumeSubmit(s, request, late);
    forall q | 0 <= q < |s'.queues|
      ensures QueueInv(s', q)
    {
      assert QueueInv(s, q);
    }
    ResumeKeepsLive(s, request, late);
  }

  lemma ResumeKeepsLive(s: State, request: RequestId, late: bool)
    requires Inv(s)
    ensures Shape(ResumeSubmit(s, request, late)) && |ResumeSubmit(s, request, late).futures| == |s.futures|
    ensures forall r :: 0 <= r < |s.futures| ==> LiveInv(ResumeSubmit(s, request, late), r)
  {
    hide QueueInv;
    forall r | 0 <= r < |s.futures|
      ensures LiveInv(ResumeSubmit(s, request, late), r)
    {
      assert LiveInv(s, r);
    }
  }

  lemma ApplyKeepsInv(s: State, e: Event)
    requires Inv(s)
    ensures Inv(Apply(s, e))
  {
    match e
    case Create(session) => CreateKeepsInv(s, session);
    case Close(session) => CloseKeepsInv(s, session);
    case Submit(session) => SubmitKeepsInv(s, session);
    case Take(q) => TakeKeepsInv(s, q);
    case Respond(request, response) => AnswerKeepsInv(s, request, response);
    case Expire(request) => ExpireKeepsInv(s, request);
    case Resume(request, late) => ResumeKeepsInv(s, request, late);
  }

  // Whole runs.

  lemma InitialInv()
    ensures Inv(INITIAL)
  {
  }

  lemma {:induction false} RunKeepsInv(s: State, events: seq<Event>)
    requires Inv(s)
    ensures Inv(Run(s, events))
    decreases events
  {
    if events != [] {
      ApplyKeepsInv(s, events[0]);
      RunKeepsInv(Apply(s, events[0]), events[1..]);
    }
  }

  /** What a later state may not take back: outcomes, resolved futures, deliveries, and who submitted what. */
  ghost predicate Extends(s: State, s': State)
    requires Shape(s) && Shape(s')
  {
    SettledStay(s, s') && RecordsStay(s, s')
  }

  ghost predicate SettledStay(s: State, s': State)
    requires Shape(s) && Shape(s')
  {
    && |s.futures| <= |s'.futures|
    && (forall r :: r in s.outcomes ==> r in s'.outcomes && s'.outcomes[r] == s.outcomes[r])
    && (forall r :: 0 <= r < |s.futures| && !s.futures[r].Pending? ==> s'.futures[r] == s.futures[r])
  }

  ghost predicate RecordsStay(s: State, s': State)
    requires Shape(s) && Shape(s')
  {
    && |s.futures| <= |s'.futures| && |s.queues| <= |s'.queues|
    && (forall r :: 0 <= r < |s.futures| ==> s'.sessionOf[r] == s.sessionOf[r] && s'.queueOf[r] == s.queueOf[r])
    && (forall q :: 0 <= q < |s.queues| ==> s.delivered[q] <= s'.delivered[q] && s'.owners[q] == s.owners[q])
  }

  lemma ApplyKeepsSettled(s: State, e: Event)
    requires Inv(s) && Inv(Apply(s, e))
    ensures SettledStay(s, Apply(s, e))
  {
    hide QueueInv;
    assert forall r :: 0 <= r < |s.futures| ==> LiveInv(s, r);
  }

  lemma ApplyKeepsRecords(s: State, e: Event)
    requires Shape(s) && Shape(Apply(s, e))
    ensures RecordsStay(s, Apply(s, e))
  {
  }

  lemma ApplyExtends(s: State, e: Event)
    requires Inv(s)
    ensures Shape(Apply(s, e)) && Extends(s, Apply(s, e))
  {
    hide Apply, SettledStay, RecordsStay;
    ApplyKeepsInv(s, e);
    ApplyKeepsSettled(s, e);
    ApplyKeepsRecords(s, e);
  }

  /** At most one outcome per request and at most one result per future, over every interleaving. */
  lemma {:induction false} RunExtends(s: State, events: seq<Event>)
    requires Inv(s)
    ensures Inv(Run(s, events)) && Extends(s, Run(s, events))
    decreases events
  {
    if events != [] {
      ApplyKeepsInv(s, events[0]);
      ApplyExtends(s, events[0]);
      RunExtends(Apply(s, events[0]), events[1..]);
    }
  }

  /** Request `r` was submitted to the session that queue `q` was created for, and put in `q` and no other queue. */
  ghost predicate OwnRequest(s: State, q: QueueId, r: RequestId)
    requires Shape(s) && q < |s.queues|
  {
    r < |s.futures| && s.queueOf[r] == q && s.sessionOf[r] == s.owners[q]
  }

  lemma DeliveredToOwner(s: State, q: QueueId, r: RequestId)
    requires Inv(s) && q < |s.queues| && r in s.delivered[q]
    ensures OwnRequest(s, q, r)
  {
    assert QueueInv(s, q);
    assert r in s.delivered[q] + s.queues[q];
  }

  lemma DeliveredInOrder(s: State, q: QueueId)
    requires Inv(s) && q < |s.queues|
    ensures Increasing(s.delivered[q])
  {
    assert QueueInv(s, q);
    IncreasingPrefix(s.delivered[q], s.queues[q]);
    assert s.delivered[q] + [] == s.delivered[q];
  }

  /** Every reachable state: open and closed sessions are disjoint; live requests belong to open sessions; each queue
      delivers its own session's requests, in submission order, none twice, and no request is delivered by two
      queues. */
  lemma RegistrySafe(events: seq<Event>)
    ensures var s := Run(INITIAL, events);
      && Shape(s)
      && s.sessions.Keys !! s.closed
      && (forall r :: r in s.requests ==> s.sessionOf[r] in s.sessions)
      && (forall q :: 0 <= q < |s.queues| ==> Increasing(s.delivered[q]))
      && (forall q :: 0 <= q < |s.queues| ==> forall r :: r in s.delivered[q] ==> OwnRequest(s, q, r))
  {
    var s := Run(INITIAL, events);
    RunKeepsInv(INITIAL, events);
    forall r | r in s.requests
      ensures s.sessionOf[r] in s.sessions
    {
      assert LiveInv(s, r);
    }
    forall q | 0 <= q < |s.queues|
      ensures Increasing(s.delivered[q])
    {
      DeliveredInOrder(s, q);
    }
    forall q | 0 <= q < |s.queues|
      ensures forall r :: r in s.delivered[q] ==> OwnRequest(s, q, r)
    {
      forall r | r in s.delivered[q]
        ensures OwnRequest(s, q, r)
      {
        DeliveredToOwner(s, q, r);
      }
    }
  }

  /** After a close no request of the session is live and none of its submitters is left waiting for a result. */
  lemma CloseSettlesSession(s: State, session: SessionId)
    requires Inv(s)
    ensures var s' := CloseSession(s, session);
      && session !in s'.sessions && session in s'.closed
      && (forall r :: 0 <= r < |s'.futures| && s'.sessionOf[r] == session ==>
        r !in s'.requests && !s'.futures[r].Pending?)
      && (forall r :: 0 <= r < |s.futures| && s.sessionOf[r] == session && s.futures[r].Pending? ==>
            s'.futures[r] == Resolved(Response(499, "OpenAI proxy session was closed")))
      && (forall r :: 0 <= r < |s.futures| && s.sessionOf[r] != session ==>
            s'.futures[r] == s.futures[r] && (r in s'.requests <==> r in s.requests))
  {
    var s' := CloseSession(s, session);
    CloseKeepsInv(s, session);
    forall r | 0 <= r < |s'.futures| && s'.sessionOf[r] == session
      ensures r !in s'.requests && !s'.futures[r].Pending?
    {
      assert LiveInv(s', r);
    }
    assert forall r :: 0 <= r < |s.futures| ==> LiveInv(s, r);
  }

  lemma CloseIdempotent(s: State, session: SessionId)
    requires Inv(s)
    ensures CloseSession(CloseSession(s, session), session) == CloseSession(s, session)
  {
    var once := CloseSession(s, session);
    var twice := CloseSession(once, session);
    assert forall r :: 0 <= r < |s.futures| ==> LiveInv(s, r);
    assert twice.futures == once.futures;
    assert twice.requests == once.requests;
    assert twice.sessions == once.sessions;
    assert twice.closed == once.closed;
  }

  /** The submitter gets the response of the first answer that beats its deadline; anything else ends in the timeout. */
  lemma FirstAnswerWins(s: State, r: RequestId, first: Response, second: Response)
    requires Inv(s) && r < |s.futures| && s.futures[r].Pending?
    ensures var s' := Answer(Answer(s, r, first), r, second);
      && s' == Answer(s, r, first)
      && r in ResumeSubmit(s', r, false).outcomes && ResumeSubmit(s', r, false).outcomes[r] == first
    ensures var s' := Answer(ExpireFuture(s, r), r, first);
      && r in ResumeSubmit(s', r, false).outcomes
      && ResumeSubmit(s', r, false).outcomes[r] == Response(504, "Timed out waiting for rollout response")
  {
    assert LiveInv(s, r);
  }
}
