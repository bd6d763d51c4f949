/** RpcPendingOperation: the completed outcome of a call, waiting in the operations table. */
module PendingOperations {
  import opened Wrappers
  import opened Messages
  import opened Errors

  /**
   * `MethodIdent` and `CompletedAt` are `required` (constructor arguments without a default;
   * `CompletedAt` is itself nullable); `Result` and `Exception` are optional and default to
   * null. All four are init-only.
   */
  datatype RpcPendingOperation = RpcPendingOperation(
    methodIdent: int,
    completedAt: Option<Time>,
    result: Option<Value> := None,
    exception: Option<RpcError> := None)

  /** An operation built the way `CompleteResponse` builds it. */
  function ResponseEntry(result: Option<Value>, methodIdent: int, at: Time): (p: RpcPendingOperation)
    ensures p.exception.None? && p.result == result
    ensures p.methodIdent == methodIdent && p.completedAt == Some(at)
  {
    RpcPendingOperation(methodIdent, Some(at), result := result)
  }

  /** An operation built the way `CompleteWithError` builds it. */
  function ErrorEntry(error: RpcError, methodIdent: int, at: Time): (p: RpcPendingOperation)
    ensures p.exception == Some(error) && p.result.None?
    ensures p.methodIdent == methodIdent && p.completedAt == Some(at)
  {
    RpcPendingOperation(methodIdent, Some(at), exception := Some(error))
  }

  /** Fields left out of the initializer are null. */
  lemma UnsetFieldsAreNull(methodIdent: int, completedAt: Option<Time>)
    ensures RpcPendingOperation(methodIdent, completedAt).result.None?
    ensures RpcPendingOperation(methodIdent, completedAt).exception.None?
  {
  }
}
