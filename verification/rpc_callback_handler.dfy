/**
 * RpcCallbackHandler.OnRpc: the wrapper the code generator puts around every method that
 * carries RpcCallbackAttribute. On the host the method runs in place; elsewhere the call
 * becomes `RpcClient.Send` with the attribute's timeout.
 */
module CallbackHandler {
  import opened Wrappers
  import opened Messages
  import opened Attributes
  import opened HandlerInfos
  import opened CallbackSystem
  import opened Client

  /** A wrapped method `Task<T> M(...)`: its description, its attributes and `typeof(T)`. */
  datatype WrappedMethod = WrappedMethod(methodDesc: MethodDescription, attributes: seq<Attribute>, returnType: TypeDesc)

  /** The code generator wraps only methods that carry RpcCallbackAttribute. */
  predicate IsWrapped(m: WrappedMethod)
  {
    FirstCallback(m.attributes).Some?
  }

  /** `TimeSpan.FromSeconds(attribute.Timeout)`, in whole seconds. */
  function TimeoutOf(m: WrappedMethod): int
    requires IsWrapped(m)
  {
    Timeout(FirstCallback(m.attributes).value)
  }

  /** Which way a wrapped call goes. */
  datatype Path =
    | RunLocally
    | SendRemote(methodIdent: int, returnType: TypeDesc, timeoutSeconds: int, args: seq<Value>)

  /**
   * The branch of `OnRpc`: the host runs the method itself; any other peer sends it with
   * `T` as return type, the attribute's timeout and the arguments unchanged. (The source
   * passes `m.MethodName`, a string, where `Send` takes the method ident; the model passes
   * the ident.)
   */
  function ChoosePath(isHost: bool, m: WrappedMethod, args: seq<Value>): (p: Path)
    requires IsWrapped(m)
    ensures p.RunLocally? <==> isHost
    ensures p.SendRemote? ==>
              && p.methodIdent == m.methodDesc.ident
              && p.returnType == m.returnType
              && p.args == args
              && exists i :: 0 <= i < |m.attributes| && m.attributes[i] == Callback(RpcCallbackAttribute(p.timeoutSeconds))
  {
    if isHost then RunLocally
    else SendRemote(m.methodDesc.ident, m.returnType, TimeoutOf(m), args)
  }

  /**
   * `OnRpc(m, args)`. `resumed` is what `m.Resume()` gives on the host (its exceptions are
   * not caught). Off the host the result is exactly what `Send` returns.
   */
  method OnRpc(sys: RpcCallbackSystem, ids: GuidSource, isHost: bool, m: WrappedMethod, args: seq<Value>,
               resumed: CallResult, local: Guid, now: Time,
               transmitFault: Option<string>, budget: nat, batches: seq<seq<Completion>>)
    returns (result: CallResult, sent: Option<HostCall>)
    requires IsWrapped(m)
    requires ids.Valid()
    requires TimeoutOf(m) >= 0 ==> budget <= TimeoutOf(m) * PollsPerSecond
    modifies sys, ids
    ensures ids.Valid()
    ensures sys.handlers == old(sys.handlers)
    ensures isHost ==>
              && result == resumed && sent.None?
              && sys.operations == old(sys.operations) && ids.issued == old(ids.issued)
    ensures !isHost ==>
              && sent.Some?
              && sent.value.request.methodIdent == m.methodDesc.ident
              && sent.value.request.methodReturnTypeIdent == TypeIdent(m.returnType)
              && sent.value.request.sender == local
              && sent.value.args == args
              && sent.value.request.id !in old(ids.issued)
              && ids.issued == old(ids.issued) + {sent.value.request.id}
              && var r := SendSpec(old(sys.operations), sent.value.request.id, TimeoutOf(m), budget, batches,
                                   TypeIdent(m.returnType), transmitFault);
                 result == r.result && sys.operations == r.table
  {
    match ChoosePath(isHost, m, args)
    case RunLocally =>
      result, sent := resumed, None;
    case SendRemote(methodIdent, returnType, timeoutSeconds, sendArgs) =>
      var r, request, call, notices := Send(sys, ids, methodIdent, returnType, timeoutSeconds, sendArgs,
                                            local, now, transmitFault, budget, batches);
      result, sent := r, Some(call);
  }
}
