/**
 * RpcError: an abstract record with exactly four concrete records. `Exception` declares the
 * required `Message`; `Timeout`, `HandlerNotFound` and `InvalidArguments` derive from
 * `Exception`, so they carry the same `Message` and a C# test `e is RpcError.Exception`
 * matches all four.
 */
module Errors {
  import opened Wrappers

  /** The abstract base has no instances, so a value is always one of these four records. */
  datatype RpcError =
    | Exception(message: string)
    | Timeout(message: string)
    | HandlerNotFound(message: string)
    | InvalidArguments(message: string)

  /** The record types of the hierarchy that can be tested for with `is`. */
  datatype Kind = ExceptionKind | TimeoutKind | HandlerNotFoundKind | InvalidArgumentsKind

  /** The runtime record type of an error. */
  function KindOf(e: RpcError): Kind
  {
    match e
    case Exception(_) => ExceptionKind
    case Timeout(_) => TimeoutKind
    case HandlerNotFound(_) => HandlerNotFoundKind
    case InvalidArguments(_) => InvalidArgumentsKind
  }

  /** The record a kind derives from; `Exception` derives only from the abstract `RpcError`. */
  function BaseOf(k: Kind): Option<Kind>
  {
    if k == ExceptionKind then None else Some(ExceptionKind)
  }

  /** C#'s `e is K`: the runtime record of `e` is `K` or derives from `K`. */
  predicate Is(e: RpcError, k: Kind)
  {
    KindOf(e) == k || BaseOf(KindOf(e)) == Some(k)
  }

  /** A test for `Exception` matches every error value. */
  lemma IsExceptionMatchesAll(e: RpcError)
    ensures Is(e, ExceptionKind)
  {
  }

  /** A test for one of the three derived records matches exactly the values of that record. */
  lemma IsDerivedKindExact(e: RpcError, k: Kind)
    requires k != ExceptionKind
    ensures Is(e, k) <==> KindOf(e) == k
  {
  }
}
