/**
 The registry object itself. Every method is one uninterrupted stretch of the corresponding coroutine and is
 proved to be the matching event of `RegistryModel` (axrl/openai_proxy/server.py:71-161).
 */
module RegistryClass {
  import opened RegistryModel

  datatype Submitted = Refused(response: Response) | Queued(request: RequestId)

  class Registry {
    var sessions: map<SessionId, QueueId>
    var requests: set<RequestId>
    var closed: set<SessionId>
    var queues: seq<seq<RequestId>>
    var sessionOf: seq<SessionId>
    var futures: seq<Future>
    /** What the submitting coroutines have returned so far. */
    var outcomes: map<RequestId, Response>
    ghost var delivered: seq<seq<RequestId>>
    ghost var owners: seq<SessionId>
    ghost var queueOf: seq<QueueId>

    ghost function State(): RegistryModel.State
      reads this
    {
      RegistryModel.State(sessions, closed, requests, queues, delivered, owners, sessionOf, queueOf, futures, outcomes)
    }

    ghost predicate Valid()
      reads this
    {
      Inv(State())
    }

    constructor ()
      ensures Valid() && State() == INITIAL
    {
      sessions, requests, closed, queues, sessionOf, futures, outcomes := map[], {}, {}, [], [], [], map[];
      delivered, owners, queueOf := [], [], [];
      new;
      InitialInv();
    }

    /** `ok` is false when the session already exists, which the source reports as an error. */
    method CreateSession(session: SessionId) returns (ok: bool)
      requires Valid()
      modifies this
      ensures Valid() && State() == Apply(old(State()), Create(session))
      ensures ok <==> session !in old(sessions)
      ensures ok ==> session in sessions && sessions[session] == |old(queues)|
    {
      CreateKeepsInv(State(), session);
      if session in sessions {
        return false;
      }
      sessions := sessions[session := |queues|];
      queues := queues + [[]];
      delivered, owners := delivered + [[]], owners + [session];
      closed := closed - {session};
      ok := true;
    }

    method Respond(request: RequestId, response: Response)
      requires Valid()
      modifies this`requests, this`futures
      ensures Valid() && State() == Answer(old(State()), request, response)
    {
      AnswerKeepsInv(State(), request, response);
      AnswerRequest(request, response);
    }

    method AnswerRequest(request: RequestId, response: Response)
      modifies this`requests, this`futures
      ensures State() == Answer(old(State()), request, response)
    {
      if request !in requests {
        return;
      }
      requests := requests - {request};
      if request < |futures| && futures[request].Pending? {
        futures := futures[request := Resolved(response)];
      }
    }

    /** Between the fields before a close and now: only requests of `session` were answered, all with "closed". */
    ghost predicate Closing(before: RegistryModel.State, session: SessionId)
      reads this
    {
      && requests <= before.requests
      && (forall r :: r in before.requests && r !in requests ==> r < |sessionOf| && sessionOf[r] == session)
      && |futures| == |before.futures|
      && (forall r :: 0 <= r < |futures| ==>
            futures[r] == if r in before.requests && r !in requests && before.futures[r].Pending? then Resolved(CLOSED)
                else before.futures[r])
    }

    method CloseSession(session: SessionId)
      requires Valid()
      modifies this
      ensures Valid() && State() == Apply(old(State()), Close(session))
    {
      ghost var before := State();
      CloseKeepsInv(before, session);
      closed := closed + {session};
      if session in sessions {
        var q := sessions[session];
        sessions := sessions - {session};
        DrainQueue(before, session, q);
      } else {
        assert sessions == sessions - {session};
      }
      FailRequestsOf(before, session);
    }

    method DrainQueue(ghost before: RegistryModel.State, session: SessionId, q: QueueId)
      requires Inv(before) && session in before.sessions && before.sessions[session] == q
      requires queues == before.queues && sessionOf == before.sessionOf && Closing(before, session)
      modifies this`queues, this`requests, this`futures
      ensures queues == before.queues[q := []] && Closing(before, session)
    {
      assert QueueInv(before, q);
      while queues[q] != []
        invariant q < |queues| && queues == before.queues[q := queues[q]]
        invariant forall r :: r in queues[q] ==> r in before.queues[q]
        invariant Closing(before, session)
        decreases |queues[q]|
      {
        var request := queues[q][0];
        assert request in before.delivered[q] + before.queues[q];
        queues := queues[q := queues[q][1..]];
        AnswerRequest(request, CLOSED);
      }
    }

    method FailRequestsOf(ghost before: RegistryModel.State, session: SessionId)
      requires Inv(before) && sessionOf == before.sessionOf && Closing(before, session)
      modifies this`requests, this`futures
      ensures requests == RegistryModel.CloseSession(before, session).requests
      ensures futures == RegistryModel.CloseSession(before, session).futures
    {
      hide QueueInv, LiveInv;
      var requestIds := set r | r in requests && r < |sessionOf| && sessionOf[r] == session;
      while requestIds != {}
        invariant requestIds == set r | r in requests && r < |sessionOf| && sessionOf[r] == session
        invariant Closing(before, session)
        decreases requestIds
      {
        var request :| request in requestIds;
        AnswerRequest(request, CLOSED);
        requestIds := requestIds - {request};
      }
      forall r | r in requests
        ensures !(r < |sessionOf| && sessionOf[r] == session)
      {
        assert r !in requestIds;
      }
    }

    /** The part of `submit_chat_completion` before it waits for the answer. */
    method SubmitChatCompletion(session: SessionId) returns (r: Submitted)
      requires Valid()
      modifies this
      ensures Valid() && State() == Apply(old(State()), Submit(session))
      ensures r.Refused? <==> session !in old(sessions)
      ensures r.Refused? ==> r.response == Response(404, if session in old(closed)
                then "OpenAI proxy session is closed" else "Unknown OpenAI proxy session")
      ensures r.Queued? ==> r.request == |old(futures)| && r.request in requests && futures[r.request] == Pending
    {
      SubmitKeepsInv(State(), session);
      if session in closed {
        return Refused(Response(404, "OpenAI proxy session is closed"));
      }
      if session !in sessions {
        return Refused(Response(404, "Unknown OpenAI proxy session"));
      }
      var q := sessions[session];
      var request := |futures|;
      requests := requests + {request};
      queues := queues[q := queues[q] + [request]];
      sessionOf, futures, queueOf := sessionOf + [session], futures + [Pending], queueOf + [q];
      r := Queued(request);
    }

    /** The part after the wait; `late` is a deadline that passed although a result is set. */
    method FinishSubmit(request: RequestId, late: bool) returns (response: Response)
      requires Valid() && request < |futures| && !futures[request].Pending? && request !in outcomes
      modifies this`requests, this`outcomes
      ensures Valid() && State() == Apply(old(State()), Resume(request, late))
      ensures request in outcomes && response == outcomes[request]
      ensures response == if futures[request].Resolved? && !late then futures[request].response
                          else Response(504, "Timed out waiting for rollout response")
    {
      ResumeKeepsInv(State(), request, late);
      if futures[request].Resolved? && !late {
        response := futures[request].response;
      } else {
        requests := requests - {request};
        response := TIMED_OUT;
      }
      outcomes := outcomes[request := response];
    }

    /**
     One `queue.get()` of a waiter that looked the queue up earlier; `None`-like `live == false` means it loops again.
     */
    method TakeFromQueue(q: QueueId) returns (request: RequestId, live: bool)
      requires Valid() && q < |queues| && queues[q] != []
      modifies this`queues, this`delivered
      ensures Valid() && State() == Apply(old(State()), Take(q))
      ensures request == old(queues[q])[0]
      ensures live <==> request in requests
      ensures live ==> delivered[q] == old(delivered[q]) + [request]
    {
      TakeKeepsInv(State(), q);
      request := queues[q][0];
      queues := queues[q := queues[q][1..]];
      live := request in requests;
      if live {
        delivered := delivered[q := delivered[q] + [request]];
      }
    }

    /** The deadline of a waiting submitter passes. */
    method DeadlinePassed(request: RequestId)
      requires Valid()
      modifies this`futures
      ensures Valid() && State() == Apply(old(State()), Expire(request))
    {
      ExpireKeepsInv(State(), request);
      if request < |futures| && futures[request].Pending? && request !in outcomes {
        futures := futures[request := Cancelled];
      }
    }

    /** One step of the event loop on behalf of any coroutine; an event that is not enabled changes nothing. */
    method Perform(e: Event)
      requires Valid()
      modifies this
      ensures Valid() && State() == Apply(old(State()), e)
    {
      match e
      case Create(session) => var _ := CreateSession(session);
      case Close(session) => CloseSession(session);
      case Submit(session) => var _ := SubmitChatCompletion(session);
      case Take(q) =>
        if q < |queues| && queues[q] != [] {
          var _, _ := TakeFromQueue(q);
        }
      case Respond(request, response) => Respond(request, response);
      case Expire(request) => DeadlinePassed(request);
      case Resume(request, late) =>
        if request < |futures| && !futures[request].Pending? && request !in outcomes {
          var _ := FinishSubmit(request, late);
        }
    }
  }
}
