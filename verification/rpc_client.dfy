/**
 * RpcClient: the caller side. `Send` builds a request, hands it to the host and waits for
 * the entry with the request's id; `OnRpcResponse` and `OnRpcError` are the callbacks a
 * reply invokes on the caller, which forward into the operations table.
 */
module Client {
  import opened Wrappers
  import opened Messages
  import opened Errors
  import opened CallbackSystem
  import opened Server

  /** `RpcServer.SendRpc(request, args)` called on a client: a message to the host. */
  datatype HostCall = HostCall(request: RpcMessage, args: seq<Value>)

  /**
   * `OnRpcResponse`: forward the reply's message, result and method ident unchanged to
   * `CompleteResponse`.
   */
  method OnRpcResponse(sys: RpcCallbackSystem, response: RpcMessage, result: Option<Value>, methodIdent: int, now: Time)
    modifies sys
    ensures sys.handlers == old(sys.handlers)
    ensures sys.operations == Land(old(sys.operations), ResponseArrived(response, result, methodIdent, now))
  {
    sys.CompleteResponse(response, result, methodIdent, now);
  }

  /**
   * `OnRpcError`: forward the error and method ident unchanged to `CompleteWithError`,
   * keyed by the id of the message. (The source passes the message itself where
   * `CompleteWithError` takes a Guid; the model passes `response.Id`.)
   */
  method OnRpcError(sys: RpcCallbackSystem, response: RpcMessage, error: RpcError, methodIdent: int, now: Time)
    modifies sys
    ensures sys.handlers == old(sys.handlers)
    ensures sys.operations == Land(old(sys.operations), ErrorArrived(response.id, error, methodIdent, now))
  {
    sys.CompleteWithError(response.id, error, methodIdent, now);
  }

  /** The completion call a reply causes when it reaches the caller at time `at`. */
  function Deliver(reply: Reply, at: Time): Completion
  {
    match reply
    case RpcResponse(request, result, methodIdent) => ResponseArrived(request, result, methodIdent, at)
    case RpcErrorReply(request, error, methodIdent) => ErrorArrived(request.id, error, methodIdent, at)
  }

  /** The `catch` block of `Send`, as intended: any exception gives `default`. */
  function Recover(r: CallResult): (r': CallResult)
    ensures r'.Returned?
    ensures r.Returned? ==> r' == r
    ensures r.Threw? ==> r' == Returned(None)
  {
    if r.Threw? then Returned(None) else r
  }

  /**
   * The `catch` block of `Send` as written: it logs `method!.Name` for the member that
   * `TypeLibrary.GetMemberByIdent(methodIdent) as MethodDescription` finds, and that is null
   * when the ident is not a method the type library knows.
   */
  function RecoverAsWritten(r: CallResult, methodKnown: bool): (r': CallResult)
    ensures r.Returned? ==> r' == r
    ensures r.Threw? ==> (r'.Threw? <==> !methodKnown)
  {
    match r
    case Returned(_) => r
    case Threw(_) => if methodKnown then Returned(None) else Threw(NullReference)
  }

  /** As written, a failed call for an ident that is not a known method escapes `Send` as a NullReferenceException. */
  lemma CatchBlockThrows(message: string)
    ensures RecoverAsWritten(Threw(Raised(message)), false) == Threw(NullReference)
    ensures Recover(Threw(Raised(message))) == Returned(None)
  {
  }

  /**
   * `Send` after the request with id `id` is built: transmit it (which may throw), then
   * wait on `id`; whatever is thrown gives `default`.
   */
  function SendSpec(ops: Operations, id: Guid, timeoutSeconds: int, budget: nat, batches: seq<seq<Completion>>,
                    expectedType: int, transmitFault: Option<string>): (r: WaitResponse)
    ensures r.result.Returned?
    ensures transmitFault.Some? ==> r == WaitResponse(Returned(None), ops, [])
    ensures transmitFault.None? ==>
              && r.table == WaitSpec(ops, id, timeoutSeconds, budget, batches, expectedType).table
              && r.notices == WaitSpec(ops, id, timeoutSeconds, budget, batches, expectedType).notices
    ensures r.result.value.Some? ==>
              transmitFault.None? && r.result == WaitSpec(ops, id, timeoutSeconds, budget, batches, expectedType).result
    // A transmitted request returns what the wait returns; only an exception becomes `default`.
    ensures transmitFault.None? && WaitSpec(ops, id, timeoutSeconds, budget, batches, expectedType).result.Returned? ==>
              r.result == WaitSpec(ops, id, timeoutSeconds, budget, batches, expectedType).result
    ensures transmitFault.None? && WaitSpec(ops, id, timeoutSeconds, budget, batches, expectedType).result.Threw? ==>
              r.result == Returned(None)
  {
    var attempt :=
      if transmitFault.Some? then WaitResponse(Threw(Raised(transmitFault.value)), ops, [])
      else WaitSpec(ops, id, timeoutSeconds, budget, batches, expectedType);
    WaitResponse(Recover(attempt.result), attempt.table, attempt.notices)
  }

  /**
   * `Send<TResult>(methodIdent, methodReturnType, timeout, args)` from connection `local`.
   * `transmitFault` is the exception handing the request to the host throws, if any; the
   * wait sees `budget` polls and the completions of `batches`. The result type `TResult` is
   * taken to be `methodReturnType`.
   */
  method Send(sys: RpcCallbackSystem, ids: GuidSource, methodIdent: int, methodReturnType: TypeDesc,
              timeoutSeconds: int, args: seq<Value>, local: Guid, now: Time,
              transmitFault: Option<string>, budget: nat, batches: seq<seq<Completion>>)
    returns (result: CallResult, request: RpcMessage, sent: HostCall, notices: seq<Notice>)
    requires ids.Valid()
    requires timeoutSeconds >= 0 ==> budget <= timeoutSeconds * PollsPerSecond
    modifies sys, ids
    ensures ids.Valid()
    ensures request.id !in old(ids.issued) && ids.issued == old(ids.issued) + {request.id}
    ensures request.methodIdent == methodIdent && request.sender == local
    ensures request.methodReturnTypeIdent == TypeIdent(methodReturnType) && request.genericArguments == []
    ensures sent == HostCall(request, args)
    ensures sys.handlers == old(sys.handlers)
    ensures SendSpec(old(sys.operations), request.id, timeoutSeconds, budget, batches, TypeIdent(methodReturnType), transmitFault)
            == WaitResponse(result, sys.operations, notices)
  {
    // The source passes the return type's name where `Create` takes the type itself.
    request := Create(ids, methodIdent, methodReturnType, local, now);
    sent := HostCall(request, args);
    if transmitFault.Some? {
      result, notices := Recover(Threw(Raised(transmitFault.value))), [];
      return;
    }
    var waited;
    waited, notices := sys.WaitForResponse(request.id, timeoutSeconds, budget, batches, TypeIdent(methodReturnType));
    result := Recover(waited);
  }

  /**
   * A call to a registered handler that succeeds, whose reply reaches the caller as
   * completion `k` of the batch after poll `j`, before the deadline and before any other
   * completion for the call, returns the converted handler result and leaves no entry for
   * the call behind.
   */
  lemma {:induction false} RegisteredCallReturnsHandlerResult(
    handlers: Handlers, request: RpcMessage, args: seq<Value>,
    invoke: Invocation -> Outcome<Value>, convert: (Value, int) -> Outcome<Option<Value>>,
    ops: Operations, timeoutSeconds: nat, budget: nat, batches: seq<seq<Completion>>, j: nat, k: nat, at: Time)
    requires request.id !in ops
    requires request.methodIdent in handlers
    requires var h := handlers[request.methodIdent];
      && invoke(Invocation(h.instance, h.methodDesc, args)).Ok?
      && convert(invoke(Invocation(h.instance, h.methodDesc, args)).value, request.methodReturnTypeIdent).Ok?
    requires var d := SendRpc(handlers, request, args, request.sender, invoke, convert);
      d.sent.reply.result.Some? ==> d.sent.reply.result.value.typeIdent == request.methodReturnTypeIdent
    requires j < |batches| && j + 1 < budget
    requires k < |batches[j]|
    requires batches[j][k] == Deliver(SendRpc(handlers, request, args, request.sender, invoke, convert).sent.reply, at)
    requires forall q, c :: 0 <= q < j && c in batches[q] ==> CompletionId(c) != request.id
    requires forall c :: c in batches[j][..k] ==> CompletionId(c) != request.id
    ensures var d := SendRpc(handlers, request, args, request.sender, invoke, convert);
      var h := handlers[request.methodIdent];
      var r := SendSpec(ops, request.id, timeoutSeconds, budget, batches, request.methodReturnTypeIdent, None);
      && d.sent.reply.RpcResponse?
      && r.result == Returned(convert(invoke(Invocation(h.instance, h.methodDesc, args)).value,
                                      request.methodReturnTypeIdent).value)
      && r.table == LandThrough(ops, batches, j + 1) - {request.id}
      && request.id !in r.table
  {
    WaitFindsFirstArrival(ops, request.id, batches, budget, j, k);
  }

  /**
   * A call to an unregistered ident, whose reply reaches the caller as completion `k` of the
   * batch after poll `j`, before the deadline and before any other completion for the call,
   * gives no value and exactly one error reply, which is HandlerNotFound, and leaves no entry
   * for the call behind.
   */
  lemma {:induction false} UnregisteredCallReportsNotFound(
    handlers: Handlers, request: RpcMessage, args: seq<Value>,
    invoke: Invocation -> Outcome<Value>, convert: (Value, int) -> Outcome<Option<Value>>,
    ops: Operations, timeoutSeconds: nat, budget: nat, batches: seq<seq<Completion>>, j: nat, k: nat, at: Time)
    requires request.id !in ops
    requires request.methodIdent !in handlers
    requires j < |batches| && j + 1 < budget
    requires k < |batches[j]|
    requires batches[j][k] == Deliver(SendRpc(handlers, request, args, request.sender, invoke, convert).sent.reply, at)
    requires forall q, c :: 0 <= q < j && c in batches[q] ==> CompletionId(c) != request.id
    requires forall c :: c in batches[j][..k] ==> CompletionId(c) != request.id
    ensures var d := SendRpc(handlers, request, args, request.sender, invoke, convert);
      var r := SendSpec(ops, request.id, timeoutSeconds, budget, batches, request.methodReturnTypeIdent, None);
      var error := HandlerNotFound(NotFoundMessage(request.methodIdent));
      && d.invoked.None?
      && r.result == Returned(None)
      && ErrorReports(r.notices) == 1
      && r.notices == [OperationFailed(request.id, request.methodIdent, error), ErrorSent(request.id, error, request.methodIdent)]
      && r.table == LandThrough(ops, batches, j + 1) - {request.id}
      && request.id !in r.table
  {
    WaitFindsFirstArrival(ops, request.id, batches, budget, j, k);
  }

  /**
   * A reply that arrives only after the deadline: while the call waits, no completion for it
   * lands, whatever else lands. The call gives no value, fires `OnOperationTimeout` and
   * exactly one Timeout error reply, and the late reply then lands as an entry that no wait
   * will consume.
   */
  lemma {:induction false} LateReplyIsOrphaned(ops: Operations, id: Guid, reply: Reply, timeoutSeconds: nat,
                                                budget: nat, batches: seq<seq<Completion>>, expectedType: int, at: Time)
    requires id !in ops && budget >= 1 && reply.request.id == id
    requires forall q, c :: 0 <= q < |batches| && c in batches[q] ==> CompletionId(c) != id
    ensures var r := SendSpec(ops, id, timeoutSeconds, budget, batches, expectedType, None);
      && r.result == Returned(None)
      && r.table == LandThrough(ops, batches, budget)
      && r.notices == [OperationTimeout(id), ErrorSent(id, Timeout(TimeoutMessage(id, timeoutSeconds % 60)), -1)]
      && id in Land(r.table, Deliver(reply, at))
  {
    forall q: nat | q < budget ensures id !in LandThrough(ops, batches, q) {
      LandThroughAbsent(ops, id, batches, q);
    }
    WaitSpecOutcome(ops, id, timeoutSeconds, budget, batches, expectedType);
  }
}
