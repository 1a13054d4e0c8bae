/** The client's correlation table: completion sources, and the events that compete to complete
    them. */
module RpcClient {
  import opened Basics
  import opened ServiceHost

  datatype ClientError = NoReplica | TimedOut

  datatype Completion = Pending | Replied(body: ReplyBody) | Faulted(error: ClientError)

  /** A completion only ever moves from pending to its first outcome. */
  function Settle(before: Completion, outcome: Completion): Completion {
    if before == Pending then outcome else before
  }

  datatype Status = Success | ServerError | Aborted | TimedOutStatus | ClientFailure

  /** What `InvokeRequestAsync` makes of a completed source. */
  function StatusOf(c: Completion): Status
    requires c != Pending
  {
    match c
    case Replied(Canceled) => Aborted
    case Replied(Error(_)) => ServerError
    case Replied(_) => Success
    case Faulted(TimedOut) => TimedOutStatus
    case Faulted(NoReplica) => ClientFailure
  }

  /** The status that a call ends with, from what it was completed with: the client reports success for
      a reply that is neither a cancellation nor an error, whatever value it carries. */
  lemma StatusMeans(c: Completion)
    requires c != Pending
    ensures StatusOf(c) == Success <==> c.Replied? && !c.body.Canceled? && !c.body.Error?
    ensures StatusOf(c) == Aborted <==> c == Replied(Canceled)
    ensures StatusOf(c) == ServerError <==> c.Replied? && c.body.Error?
    ensures StatusOf(c) == TimedOutStatus <==> c == Faulted(TimedOut)
    ensures StatusOf(c) == ClientFailure <==> c == Faulted(NoReplica)
  {
  }

  class TaskCompletionSource {
    var state: Completion

    constructor ()
      ensures state == Pending
    {
      state := Pending;
    }

    /** `TrySetResult` and `TrySetException`. */
    method TrySet(outcome: Completion) returns (won: bool)
      modifies this
      ensures won <==> old(state) == Pending
      ensures old(state) == Pending ==> state == outcome
      ensures old(state) != Pending ==> state == old(state)
      ensures state == Settle(old(state), outcome)
    {
      won := state == Pending;
      if won {
        state := outcome;
      }
    }
  }

  class RabbitServiceClient {
    var requests: map<string, TaskCompletionSource>

    constructor ()
      ensures requests == map[]
    {
      requests := map[];
    }

    /** No two correlation ids share a source. */
    ghost predicate Valid()
      reads this
    {
      forall a, b :: a in requests && b in requests && a != b ==> requests[a] != requests[b]
    }

    /** `TryAdd` before the request is published. */
    method Register(id: string) returns (source: TaskCompletionSource)
      requires Valid()
      modifies this
      ensures Valid() && fresh(source) && source.state == Pending
      ensures requests == if id in old(requests) then old(requests) else old(requests)[id := source]
    {
      source := new TaskCompletionSource();
      if id !in requests {
        requests := requests[id := source];
      }
    }

    /** The reply consumer and `OnBasicReturn`: they complete the source with this very id, if it is
        still pending, and touch no other. */
    method OnOutcome(id: string, outcome: Completion)
      requires Valid()
      modifies requests.Values
      ensures Valid()
      ensures id in requests ==>
                requests[id].state == if old(requests[id].state) == Pending then outcome else old(requests[id].state)
      ensures forall a :: a in requests && a != id ==> requests[a].state == old(requests[a].state)
    {
      if id in requests {
        var _ := requests[id].TrySet(outcome);
      }
    }

    /** The timeout callback: it also forgets the id, so that nothing later finds the source. */
    method OnTimeout(id: string) returns (cancelled: bool)
      requires Valid()
      modifies this, requests.Values
      ensures Valid() && requests == old(requests) - {id}
      ensures cancelled <==> id in old(requests)
      ensures cancelled ==>
                old(requests)[id].state ==
                if old(requests[id].state) == Pending then Faulted(TimedOut) else old(requests[id].state)
      ensures forall a :: a in requests ==> requests[a].state == old(requests[a].state)
    {
      cancelled := id in requests;
      if cancelled {
        var source := requests[id];
        requests := requests - {id};
        var _ := source.TrySet(Faulted(TimedOut));
      }
    }
  }
}
