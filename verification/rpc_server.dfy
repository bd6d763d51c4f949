/**
 * RpcServer.SendRpc: the host-side dispatch of one request. It changes no state: given the
 * registry, the request and what the handler and the result conversion do, it decides the
 * one message that goes back to the calling connection.
 */
module Server {
  import opened Wrappers
  import opened Messages
  import opened Errors
  import opened HandlerInfos
  import opened CallbackSystem
  import Text

  /** A call of a handler method on its owning component with the request's arguments. */
  datatype Invocation = Invocation(instance: ComponentRef, methodDesc: MethodDescription, args: seq<Value>)

  /** The client callback a reply invokes on the caller's side. */
  datatype Reply =
    | RpcResponse(request: RpcMessage, result: Option<Value>, methodIdent: int)   // RpcClient.OnRpcResponse
    | RpcErrorReply(request: RpcMessage, error: RpcError, methodIdent: int)       // RpcClient.OnRpcError

  /** A reply, filtered so that only connection `to` receives it. */
  datatype Outbound = Outbound(to: Guid, reply: Reply)

  /** What one dispatch did: the handler call it made, if any, and the one message it sent. */
  datatype Dispatched = Dispatched(invoked: Option<Invocation>, sent: Outbound)

  function NotFoundMessage(methodIdent: int): string
  {
    "No handler registered for method " + Text.IntToString(methodIdent)
  }

  /**
   * `SendRpc(request, args)` run on the host for the connection `caller`. `invoke` is the
   * handler's behaviour (its awaited task result, or the exception it throws); `convert` is
   * the JSON round trip of that result to the type with the request's return-type ident.
   *
   * The source looks up `request.Method` and reads `request.MethodReturnTypeName`, which the
   * envelope does not have; the model uses `MethodIdent` and `MethodReturnTypeIdent`. Its
   * `OnRpcError(request, …)` / `OnRpcResponse(request, …)` calls match the callbacks as declared.
   */
  function SendRpc(handlers: Handlers, request: RpcMessage, args: seq<Value>, caller: Guid,
                   invoke: Invocation -> Outcome<Value>,
                   convert: (Value, int) -> Outcome<Option<Value>>): (d: Dispatched)
    // Every reply goes to the calling connection only, and echoes the request and its ident.
    ensures d.sent.to == caller
    ensures d.sent.reply.request == request && d.sent.reply.methodIdent == request.methodIdent
    // An unknown ident invokes nothing and is answered with HandlerNotFound.
    ensures d.invoked.None? <==> request.methodIdent !in handlers
    ensures request.methodIdent !in handlers ==>
              d.sent.reply == RpcErrorReply(request, HandlerNotFound(NotFoundMessage(request.methodIdent)), request.methodIdent)
    // A known ident invokes the registered method on its registered instance with the arguments.
    ensures request.methodIdent in handlers ==>
              d.invoked == Some(Invocation(handlers[request.methodIdent].instance,
                                           handlers[request.methodIdent].methodDesc, args))
    // A response is sent exactly when the handler and the conversion both succeed, with the converted value.
    ensures d.sent.reply.RpcResponse? <==>
              d.invoked.Some? && invoke(d.invoked.value).Ok?
              && convert(invoke(d.invoked.value).value, request.methodReturnTypeIdent).Ok?
    ensures d.sent.reply.RpcResponse? ==>
              d.sent.reply.result == convert(invoke(d.invoked.value).value, request.methodReturnTypeIdent).value
    // Any exception becomes RpcError.Exception with the exception's message.
    ensures d.invoked.Some? && d.sent.reply.RpcErrorReply? ==>
              && d.sent.reply.error.Exception?
              && (invoke(d.invoked.value).Throws? ==> d.sent.reply.error.message == invoke(d.invoked.value).message)
              && (invoke(d.invoked.value).Ok? ==>
                    d.sent.reply.error.message
                    == convert(invoke(d.invoked.value).value, request.methodReturnTypeIdent).message)
  {
    if request.methodIdent !in handlers then
      var error := NotFoundMessage(request.methodIdent);
      Dispatched(None, Outbound(caller, RpcErrorReply(request, HandlerNotFound(error), request.methodIdent)))
    else
      var handler := handlers[request.methodIdent];
      var call := Invocation(handler.instance, handler.methodDesc, args);
      var reply :=
        match invoke(call)
        case Throws(message) => RpcErrorReply(request, Exception(message), request.methodIdent)
        case Ok(taskResult) =>
          match convert(taskResult, request.methodReturnTypeIdent)
          case Throws(message) => RpcErrorReply(request, Exception(message), request.methodIdent)
          case Ok(finalResult) => RpcResponse(request, finalResult, request.methodIdent);
      Dispatched(Some(call), Outbound(caller, reply))
  }

  /** Dispatch answers only with Exception or HandlerNotFound: never Timeout or InvalidArguments. */
  lemma DispatchErrorKinds(handlers: Handlers, request: RpcMessage, args: seq<Value>, caller: Guid,
                           invoke: Invocation -> Outcome<Value>, convert: (Value, int) -> Outcome<Option<Value>>)
    ensures var r := SendRpc(handlers, request, args, caller, invoke, convert).sent.reply;
      r.RpcErrorReply? ==> r.error.Exception? || r.error.HandlerNotFound?
  {
  }
}
