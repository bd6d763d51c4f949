# Extend.Callbacks RPC correlation layer, modelled in Dafny

This project models the request/response core of the `Extend.Callbacks` RPC library.
A method marked `[RpcCallback]` is wrapped by `RpcCallbackHandler.OnRpc`. On the host the
method runs in place. On any other peer, `RpcClient.Send` builds an `RpcMessage` with a fresh
id and hands it to the host (`RpcServer.SendRpc`). It then polls the `RpcCallbackSystem`
operations table every 10 ms until an entry for that id appears or the timeout or caller
token fires.

On the host, `SendRpc` looks the method ident up in the handler registry. It invokes the
handler, converts its result and sends exactly one reply, a response or an error, to the
calling connection only. On the caller, that reply lands in the operations table through
`CompleteResponse` or `CompleteWithError`. Both insert only when the id is absent.

Files, one module per source file:

- `rpc_error.dfy` (`Errors`): the four error records.
- `rpc_callback_attribute.dfy` (`Attributes`): the attribute, its 5-second default, and attribute lookup.
- `rpc_message.dfy` (`Messages`): the envelope, `Create`, and a Guid source that never repeats.
- `rpc_handler_info.dfy` (`HandlerInfos`) and `rpc_pending_operation.dfy` (`PendingOperations`): the two init-only records.
- `rpc_callback_system.dfy` (`CallbackSystem`): the `RpcCallbackSystem` class over the two maps.
  It also holds their specification: `Registry`, `Announced`, `Wait`, `Settle` and `WaitSpec`, with lemmas about them.
- `rpc_server.dfy` (`Server`): dispatch, as a pure function returning the one outbound message.
- `rpc_client.dfy` (`Client`): `Send`, `OnRpcResponse`, `OnRpcError`, and end-to-end lemmas.
- `rpc_callback_handler.dfy` (`CallbackHandler`): `OnRpc`.
- `wrappers.dfy` and `text.dfy`: `Option`/`Outcome`, and decimal rendering for error messages.

Modelling choices:

- Time is abstract, and every timestamp is a parameter.
- A wait is given `budget`, the number of polls before its combined token fires. The budget is at
  most 100 per second of timeout. A budget of zero means the token had fired before the first poll.
- A wait is also given `batches`, the `CompleteResponse`/`CompleteWithError` calls that other
  parties make while it sleeps.
- The handler's behaviour and the JSON result conversion are function parameters that may throw.
- Records with init-only properties are datatypes. Required properties are constructor arguments
  without a default. Optional properties default to `None`.

Where the source does not type-check, the model follows the evident intent, and a comment marks
each place:

- `request.Method` and `request.MethodReturnTypeName` become `MethodIdent` and `MethodReturnTypeIdent`.
- `Send` passes the type itself to `Create`.
- `OnRpcError` completes with `response.Id`.
- The `OnRpcError` calls in `WaitForResponse` identify the call by its id.
- `RpcError.Timeout(id, seconds)` becomes a `Timeout` record whose message names both.
- `OnRpc` passes the method ident.
- `operation.Exception.Value` in `WaitForResponse` becomes the error itself; `RpcError?` is a nullable record reference with no `Value` member.

Behaviour of the source worth knowing, which the model keeps:

- A completion that arrives after its entry was consumed is inserted again, not ignored
  (`RedeliveryAfterConsumptionReinserts`).
- A reply that arrives after a timeout stays in the table until `Dispose`. Nothing reclaims it
  (`LateReplyIsOrphaned`).
- The error records are `Exception`, `Timeout`, `HandlerNotFound` and `InvalidArguments`.
  Dispatch produces only the first and the third.
- `Send` does not reject any method ident up front. A failed transmit returns `default`; it
  does not produce a typed error.

## Model

| member | source | states |
|---|---|---|
| `Errors.IsExceptionMatchesAll` | Code/RpcError.cs:11-32 | A test for `RpcError.Exception` matches every error value, because the other three records derive from it. |
| `Errors.IsDerivedKindExact` | Code/RpcError.cs:22-32 | A test for `Timeout`, `HandlerNotFound` or `InvalidArguments` matches exactly the values of that record. |
| `Attributes.DefaultTimeoutIsFiveSeconds` | Code/RpcCallbackAttribute.cs:10 | An attribute constructed without an argument has a 5-second timeout. |
| `Attributes.TimeoutIsConstructorArgument` | Code/RpcCallbackAttribute.cs:10-12 | The `Timeout` getter returns the constructor argument unchanged. |
| `Attributes.FirstCallback` | Code/RpcCallbackSystem.cs:36 | The lookup finds nothing iff no entry of the list is a callback attribute. Otherwise it returns the first callback attribute in the list. |
| `Messages.GuidSource.NewGuid` | Code/RpcMessage.cs:59 | Each new id is non-empty and was never issued before. |
| `Messages.Create` | Code/RpcMessage.cs:53-66 | The new message has a fresh id. Its method ident and sender are the arguments, its return-type ident is the type ident of the given type, and its generic-argument list is empty. |
| `PendingOperations.ResponseEntry` | Code/RpcCallbackSystem.cs:115-118 | The entry `CompleteResponse` stores holds the result and no error. It records the method ident and the completion time. |
| `PendingOperations.ErrorEntry` | Code/RpcCallbackSystem.cs:125-128 | The entry `CompleteWithError` stores holds the error and no result. It records the method ident and the completion time. |
| `PendingOperations.UnsetFieldsAreNull` | Code/RpcPendingOperation.cs:16-21 | `Result` and `Exception` are null when the initializer does not set them. |
| `CallbackSystem.FirstInvalid` | Code/RpcCallbackSystem.cs:34-37 | Every candidate before the returned index has a callback attribute. The candidate at that index, if any, lacks one. |
| `CallbackSystem.RegistryKeys` | Code/RpcCallbackSystem.cs:30-51 | Registration starts from an empty registry, and its keys are exactly the distinct enumerated idents. |
| `CallbackSystem.RegistryFirstWins` | Code/RpcCallbackSystem.cs:46-51 | For each ident, the registry holds the first candidate with that ident. A later duplicate never replaces it. |
| `CallbackSystem.AnnouncedMatchesRegistry` | Code/RpcCallbackSystem.cs:46-53 | `OnHandlerRegistered` fires once per handler actually added. Each event carries the stored info, no ident fires twice, and so a skipped duplicate never fires. |
| `CallbackSystem.TryAdd` | Code/RpcCallbackSystem.cs:120 | Inserting adds the id. It never overwrites an existing entry, and it stores the new entry only when the id was absent. |
| `CallbackSystem.LandAllKeeps` | Code/RpcCallbackSystem.cs:113-131 | Any sequence of completions leaves every existing entry in place and unchanged. |
| `CallbackSystem.WaitCharacterization` | Code/RpcCallbackSystem.cs:68-99 | A wait ends at entry iff its budget is zero, and then the table is untouched. It finds the entry at the first poll where the id is present and leaves the table minus that entry. Otherwise it times out: the id was present at no poll, and nothing is removed. |
| `CallbackSystem.WaitTakesWaitingEntry` | Code/RpcCallbackSystem.cs:68-72 | An entry already present when the wait begins is taken and removed on the first poll. |
| `CallbackSystem.WaitRemovesOnlyItsOwnEntry` | Code/RpcCallbackSystem.cs:68-72 | A wait removes no entry but its own. Every other entry is still there unchanged, and a wait that finds nothing removes nothing. |
| `CallbackSystem.ConsumedAtMostOnce` | Code/RpcCallbackSystem.cs:70-72 | After a wait has consumed an entry, a second wait on that id, during which no completion for that id arrives, does not find it. |
| `CallbackSystem.RedeliveryAfterConsumptionReinserts` | Code/RpcCallbackSystem.cs:113-131 | Any completion, response or error, delivered again after its entry was consumed is inserted as a new entry. |
| `CallbackSystem.WaitFindsFirstArrival` | Code/RpcCallbackSystem.cs:68-96 | If the first completion for the id lands during the delay after poll `j`, with polls left, the wait finds exactly that completion's entry at poll `j + 1`. It removes that entry and leaves the table with everything else landed by then. |
| `CallbackSystem.Settle` | Code/RpcCallbackSystem.cs:74-110 | The events are given exactly and in order. An error entry gives no value and fires `OnOperationFailed`, then one error reply to the caller. An entry without error fires `OnOperationCompleted` alone, before the cast. It returns its result (null gives `default`), or an invalid cast if the type is wrong. A timeout gives no value and fires `OnOperationTimeout`, then one `Timeout` reply. A cancellation at entry does nothing. |
| `CallbackSystem.WaitSpecOutcome` | Code/RpcCallbackSystem.cs:59-110 | A negative timeout throws before the table is touched. Otherwise, the only other exception is an invalid cast, and at most one error reply is sent. A returned value is the result of an error-free entry first seen at some poll before the budget ran out. If some poll sees the id, its entry leaves the table, and the reply count is one exactly when that entry is an error. If no poll sees the id, no value comes back, every completion stays landed, and (unless cancelled at entry) `OnOperationTimeout` and one `Timeout` reply follow. |
| `CallbackSystem.RpcCallbackSystem.constructor` | Code/RpcCallbackSystem.cs:9-10 | Both maps start empty. |
| `CallbackSystem.RpcCallbackSystem.Dispose` | Code/RpcCallbackSystem.cs:22-26 | Both maps are cleared. |
| `CallbackSystem.RpcCallbackSystem.RegisterHandlers` | Code/RpcCallbackSystem.cs:28-57 | The registry becomes `Registry` of the candidates before the first invalid one, whatever it held before, and the events fired are `Announced` of them. An invalid candidate aborts and reports its attribute list. The operations table is unchanged. |
| `CallbackSystem.RpcCallbackSystem.CompleteResponse` | Code/RpcCallbackSystem.cs:113-121 | The table becomes `TryAdd` of the response's id with a result entry. The registry is unchanged. |
| `CallbackSystem.RpcCallbackSystem.CompleteWithError` | Code/RpcCallbackSystem.cs:123-131 | The table becomes `TryAdd` of the id with an error entry. The registry is unchanged. |
| `CallbackSystem.RpcCallbackSystem.WaitForResponse` | Code/RpcCallbackSystem.cs:59-111 | The result, events and final table are `WaitSpec` of the old table: the polling loop, its removal, and the completions that land meanwhile. |
| `Server.SendRpc` | Code/RpcServer.cs:18-50 | It sends one message, to the caller only, echoing the request and its ident. An unknown ident invokes nothing and sends `HandlerNotFound`. A known ident invokes the registered method on its instance with the arguments. A response is sent iff the handler and the conversion both succeed, and it carries the converted value. Otherwise it sends `Exception` with the exception's message. |
| `Server.DispatchErrorKinds` | Code/RpcServer.cs:20-49 | Dispatch's only error kinds are `Exception` and `HandlerNotFound`. |
| `Client.OnRpcResponse` | Code/RpcClient.cs:47-51 | Forwards the message, the result and the method ident unchanged to `CompleteResponse`. |
| `Client.OnRpcError` | Code/RpcClient.cs:60-64 | Forwards the error and the method ident unchanged to `CompleteWithError`, keyed by the message id. |
| `Client.Recover` | Code/RpcClient.cs:31-37 | The catch block as intended: every exception becomes `default`, and values pass through. |
| `Client.RecoverAsWritten` | Code/RpcClient.cs:33-36 | The catch block as written: for an ident that is not a known method, the exception escapes. |
| `Client.CatchBlockThrows` | Code/RpcClient.cs:33-36 | A concrete failure on which the catch block as written throws and the corrected one returns `default`. |
| `Client.SendSpec` | Code/RpcClient.cs:26-37 | With the catch block corrected as in the Findings row below, `Send` never throws. A failed transmit returns `default` and leaves the table alone. Otherwise the table and events are those of the wait on the request's id. Any value the wait returns is returned, any value returned is the wait's, and an exception from the wait becomes `default`. |
| `Client.Send` | Code/RpcClient.cs:20-38 | The request has a fresh id, the given method ident, the local sender and the return type's ident. It is sent to the host with the arguments, and the outcome is `SendSpec` for exactly that id and timeout. It uses the corrected catch block of the Findings row. |
| `Client.RegisteredCallReturnsHandlerResult` | Code/RpcClient.cs:26-29 | The call returns the converted handler result when a registered handler and the conversion succeed. Its reply must land during any delay that still leaves a poll before the deadline, and be the first completion for the call, under any schedule of other completions. The call's entry is removed, and the rest of the table is what has landed by then. The cast succeeds because a precondition assumes the converted value carries the awaited type's ident, which is what `Deserialize(returnType)` promises. |
| `Client.UnregisteredCallReportsNotFound` | Code/RpcServer.cs:22-29 | A call to an unregistered ident invokes nothing. Its reply lands as the first completion for the call, during a delay that leaves a poll before the deadline, under any schedule of other completions. The call then gives no value and fires `OnOperationFailed` and one error reply, `HandlerNotFound`, in that order. It leaves no entry for the call behind. |
| `Client.LateReplyIsOrphaned` | Code/RpcCallbackSystem.cs:101-110 | A reply that lands only after the deadline, under any schedule in which no completion for the call lands during the wait: the call gives no value and fires exactly `OnOperationTimeout` then one `Timeout` reply. Every other completion stays landed, and the late reply then stays in the table. |
| `CallbackHandler.ChoosePath` | Code/RpcCallbackHandler.cs:9-15 | The host runs the method locally. Any other peer sends it with the method's ident, `T` as return type, the arguments unchanged, and the timeout of the method's callback attribute. |
| `CallbackHandler.OnRpc` | Code/RpcCallbackHandler.cs:7-16 | On the host it returns what the method returns, sends nothing, and leaves the table alone. Elsewhere it returns exactly what `Send` returns for the request it transmits. That request's id is fresh, and it is added to the issued ids, so successive wrapped calls get distinct ids. |

## Findings

| source | as written | input that shows it | evidently intended | confidence | as-written member | corrected member |
|---|---|---|---|---|---|---|
| Code/RpcClient.cs:33-34 | The catch block dereferences `method!.Name`, where `method` is `GetMemberByIdent(methodIdent) as MethodDescription`. That is null for an ident that is not a method. | A `Send` whose transmit or wait throws, for a method ident that the type library does not resolve to a method: a NullReferenceException escapes `Send`. | Log the failure and return `default`, as the catch-all `catch (Exception e)` and `return default!` at Code/RpcClient.cs:31,36 show. The `<exception>` tag at Code/RpcClient.cs:19 says a failure throws, which disagrees with that catch block. | medium; not executed | `Client.RecoverAsWritten` (counterexample `Client.CatchBlockThrows`) | `Client.Recover` |

## Left out

- Concurrency: the two `ConcurrentDictionary` tables are plain maps, changed one call at a time. The async/await machinery is sequential code.
- Wall-clock time: `DateTime.UtcNow` values are parameters. `Task.Delay(10)` and the `CancellationTokenSource` timer become the poll budget. The budget is only bounded above by the timeout, at 100 polls per second.
- CallbackSystem.RpcCallbackSystem.RegisterHandlers: every handler of one registration gets the same `RegisteredAt`. The source reads the clock once per handler.
- CallbackSystem.Settle: the duration passed to `OnOperationCompleted` is counted in polls, not measured as elapsed time.
- CallbackSystem.RpcCallbackSystem.WaitForResponse: a cancellation in the narrow window between the end of a delay and the loop test returns `default` without a timeout notice. The model captures this path only when the token has fired before the first poll.
- CallbackSystem.RpcCallbackSystem.WaitForResponse: the runtime's upper limit on `CancellationTokenSource` timeouts is not modelled. Only a negative timeout throws.
- The `(TResult)` cast succeeds when the value's type ident equals the awaited type's ident. Subtype and boxing conversions are not modelled.
- Client.Send: `TResult` and `methodReturnType` are taken to be the same type. Its only caller, `OnRpc`, passes `typeof(T)` for both.
- The `OnRpcError` calls inside `WaitForResponse` are broadcast RPCs. The model records them as notices and does not run `CompleteWithError` on the peer that receives them.
- Logging (`Log.Info`, `Log.Warning`, `Log.Error`) is left out. The events appear as the `registered` list and as `Notice` values.
- The registration exception is reported by the offending attribute list, not by its formatted message text.
- Error message texts render ids and numbers in decimal. The text of the `Timeout` message is the model's own, because the source calls a constructor that does not exist.
- Server.SendRpc: the reply sends (Code/RpcServer.cs:26-27, 40-41) are inside the `try`. A send that throws is caught there and answered with a further `RpcError.Exception` (Code/RpcServer.cs:43-48). The model treats sending a reply to a client as something that cannot fail.
- Client.Send: the timeout is a whole number of seconds, not a `TimeSpan`. Sub-second timeouts cannot be expressed, and neither can `timeout.Seconds` of a fractional span. The only caller, `OnRpc`, passes `TimeSpan.FromSeconds` of the attribute's integer timeout.
- The JSON serialize/deserialize round trip and handler invocation by reflection are function parameters that may throw. So is the type library lookup behind them.
- Engine networking: `Rpc.Host` routing, `Rpc.Broadcast`, `Connection.Find` and `Connection.Local` are left out. `Rpc.FilterInclude(Rpc.Caller)` becomes the `to` field of the outbound message. `WrappedMethod.Resume` is the `resumed` parameter.
- `AttributeUsage(AttributeTargets.Method)` and the code generator that wraps decorated methods are not modelled as such. The model only states that a wrapped method carries the attribute (`CallbackHandler.IsWrapped`).
- Code/RpcUtility.cs is not part of this model: its reflection scan of scene components becomes the input sequence of `Candidate` values.
- Code/RpcMonitor.cs and Code/RpcMethodStats.cs are not part of this model: they are entirely commented out.
- Code/IRpcMiddleware.cs is not part of this model: nothing calls it.
