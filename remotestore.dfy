/** `RemoteStore`: the client's bookkeeping of requests still in flight to the server. Each request
    is logged under a fresh number before it is sent and ended when it completes, whatever the
    outcome; while any is in flight, leaving the page is guarded. */
module RemoteStore {
  import opened Wrappers
  import opened Wire

  /** `OutgoingMessage`: the entry or the whole store being sent. */
  datatype OutgoingMessage = OutgoingMessage(entry: Option<WireEntry>, store: Option<WireDbFull>)

  /** What `fetch` gives back: a response with its status code, or a rejection (the network
      failed). It is an input of the model. */
  datatype FetchOutcome = Response(status: int) | NetworkError

  predicate Ok(status: int) { 200 <= status <= 299 }

  /** The request made: its method and its URL. */
  datatype Request = Request(verb: string, url: string)

  datatype SendError =
    | HttpError(status: int)   // a non-OK response; `send` lets 409 through
    | Unreachable              // `fetch` rejected

  /** `oldHash ? ... : ""`: an absent or empty hash is falsy. */
  predicate Truthy(oldHash: Option<string>) { oldHash.Some? && oldHash.value != "" }

  /** The URL `send` posts an entry to. */
  function TaskUrl(id: string, oldHash: Option<string>): (url: string)
    ensures |url| >= |"/tasks/" + id| && url[..|"/tasks/" + id|] == "/tasks/" + id
    ensures Truthy(oldHash) <==> |url| > |"/tasks/" + id|
    ensures Truthy(oldHash) ==> url[|"/tasks/" + id|..] == "?oldhash=" + oldHash.value
  {
    var hashFragment := if Truthy(oldHash) then "?oldhash=" + oldHash.value else "";
    "/tasks/" + id + hashFragment
  }

  class RemoteStore {
    var nextId: int
    var outgoings: map<int, OutgoingMessage>
    /** Whether `window.onbeforeunload` holds `blockUnload`. */
    var unloadGuard: bool

    /** Every logged id is below `nextId`, and the guard is up exactly while a request is in
        flight. */
    ghost predicate Valid()
      reads this
    {
      && 1 <= nextId
      && (forall id :: id in outgoings ==> 1 <= id < nextId)
      && (unloadGuard <==> outgoings != map[])
    }

    constructor()
      ensures Valid() && nextId == 1 && outgoings == map[] && !unloadGuard
    {
      nextId := 1;
      outgoings := map[];
      unloadGuard := false;
    }

    /** `count`: the number of requests in flight. */
    function Count(): nat
      reads this
    {
      |outgoings|
    }

    /** `logOutgoing`: records the message under the next id, which no request in flight holds,
        and raises the guard. */
    method LogOutgoing(outgoing: OutgoingMessage) returns (connectionId: int)
      requires Valid()
      modifies this
      ensures Valid()
      ensures connectionId == old(nextId) && nextId == old(nextId) + 1
      ensures connectionId !in old(outgoings) && outgoings == old(outgoings)[connectionId := outgoing]
      ensures Count() == old(Count()) + 1 && unloadGuard
    {
      connectionId := nextId;
      nextId := nextId + 1;
      outgoings := outgoings[connectionId := outgoing];
      unloadGuard := true;
      assert connectionId in outgoings;
    }

    /** `endOutgoing`: forgets the id, if logged, and drops the guard once nothing is in flight. */
    method EndOutgoing(id: int)
      requires Valid()
      modifies this
      ensures Valid()
      ensures nextId == old(nextId) && outgoings == old(outgoings) - {id}
      ensures id in old(outgoings) ==> Count() == old(Count()) - 1
      ensures id !in old(outgoings) ==> Count() == old(Count())
    {
      outgoings := outgoings - {id};
      if outgoings == map[] {
        unloadGuard := false;
      }
      assert id !in old(outgoings) ==> outgoings == old(outgoings);
    }

    /** `send`: posts the entry, with its old hash when there is one. A 409 is reported to the
        user and swallowed; any other non-OK status, or a failed fetch, throws. Either way the
        request is ended, so the counts reported are one up and then back where they were. */
    method Send(entry: WireEntry, oldHash: Option<string>, outcome: FetchOutcome)
      returns (request: Request, r: Result<(), SendError>, counts: seq<nat>)
      requires Valid()
      modifies this
      ensures Valid() && nextId == old(nextId) + 1 && outgoings == old(outgoings)
      ensures request == Request("POST", TaskUrl(entry.id, oldHash))
      ensures counts == [old(Count()) + 1, old(Count())]
      ensures r.Success? <==> outcome.Response? && (Ok(outcome.status) || outcome.status == 409)
      ensures outcome.NetworkError? ==> r == Failure(Unreachable)
      ensures outcome.Response? && r.Failure? ==> r == Failure(HttpError(outcome.status))
    {
      var connectionId := LogOutgoing(OutgoingMessage(Some(entry), None));
      counts := [Count()];
      request := Request("POST", TaskUrl(entry.id, oldHash));
      match outcome {
        case NetworkError =>
          r := Failure(Unreachable);
        case Response(status) =>
          if Ok(status) || status == 409 {
            r := Success(());
          } else {
            r := Failure(HttpError(status));
          }
      }
      EndOutgoing(connectionId);
      AddThenRemove(old(outgoings), connectionId, OutgoingMessage(Some(entry), None));
      counts := counts + [Count()];
    }

    /** `replaceRemoteStore`: puts the whole store; any non-OK status, or a failed fetch, throws.
        The request is ended either way. */
    method ReplaceRemoteStore(store: WireDbFull, outcome: FetchOutcome)
      returns (request: Request, r: Result<(), SendError>, counts: seq<nat>)
      requires Valid()
      modifies this
      ensures Valid() && nextId == old(nextId) + 1 && outgoings == old(outgoings)
      ensures request == Request("PUT", "/tasks")
      ensures counts == [old(Count()) + 1, old(Count())]
      ensures r.Success? <==> outcome.Response? && Ok(outcome.status)
      ensures outcome.NetworkError? ==> r == Failure(Unreachable)
      ensures outcome.Response? && r.Failure? ==> r == Failure(HttpError(outcome.status))
    {
      var connectionId := LogOutgoing(OutgoingMessage(None, Some(store)));
      counts := [Count()];
      request := Request("PUT", "/tasks");
      match outcome {
        case NetworkError =>
          r := Failure(Unreachable);
        case Response(status) =>
          if Ok(status) {
            r := Success(());
          } else {
            r := Failure(HttpError(status));
          }
      }
      EndOutgoing(connectionId);
      AddThenRemove(old(outgoings), connectionId, OutgoingMessage(None, Some(store)));
      counts := counts + [Count()];
    }
  }

  lemma {:induction false} AddThenRemove(m: map<int, OutgoingMessage>, k: int, v: OutgoingMessage)
    requires k !in m
    ensures m[k := v] - {k} == m
  {
    assert (m[k := v] - {k}).Keys == m.Keys;
  }
}
