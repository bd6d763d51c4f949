/** RpcHandlerInfo: what the registry stores for one callback method. */
module HandlerInfos {
  import opened Messages
  import opened Attributes

  /** The component that owns a callback method (a borrowed reference). */
  type ComponentRef = nat

  /** A method description: its stable ident and its name. */
  datatype MethodDescription = MethodDescription(ident: int, name: string)

  /**
   * A sealed class whose four properties are all `required` and init-only: every field is a
   * constructor argument, and the value never changes after registration.
   */
  datatype RpcHandlerInfo = RpcHandlerInfo(
    instance: ComponentRef,
    methodDesc: MethodDescription,
    attributes: seq<Attribute>,
    registeredAt: Time)
}
