/**
 * RpcCallbackAttribute: marks a method as a remote callback and sets how many seconds a
 * caller waits for its response. Also the attribute list that comes with a method description.
 */
module Attributes {
  import opened Wrappers

  /** The timeout, in seconds, of an attribute constructed without an argument. */
  const DefaultTimeout: int := 5

  /** The primary-constructor parameter `timeout` is the whole state of the attribute. */
  datatype RpcCallbackAttribute = RpcCallbackAttribute(timeout: int := DefaultTimeout)

  /** An entry of a method's attribute list: the callback attribute, or any other attribute, known by its type name. */
  datatype Attribute =
    | Callback(callback: RpcCallbackAttribute)
    | OtherAttribute(typeName: string)

  /** The `Timeout` getter. */
  function Timeout(a: RpcCallbackAttribute): int
  {
    a.timeout
  }

  /** An attribute constructed without an argument waits 5 seconds. */
  lemma DefaultTimeoutIsFiveSeconds()
    ensures Timeout(RpcCallbackAttribute()) == 5
  {
  }

  /** The getter gives back the constructor argument unchanged. */
  lemma TimeoutIsConstructorArgument(t: int)
    ensures Timeout(RpcCallbackAttribute(t)) == t
  {
  }

  /**
   * `attributes.FirstOrDefault(a => a is RpcCallbackAttribute)`, also what
   * `GetAttribute<RpcCallbackAttribute>()` finds: the first callback attribute of the list.
   */
  function FirstCallback(attrs: seq<Attribute>): (r: Option<RpcCallbackAttribute>)
    ensures r.None? <==> forall i :: 0 <= i < |attrs| ==> !attrs[i].Callback?
    ensures r.Some? ==> exists i :: 0 <= i < |attrs| && attrs[i] == Callback(r.value)
                                   && forall j :: 0 <= j < i ==> !attrs[j].Callback?
  {
    if attrs == [] then None
    else if attrs[0].Callback? then Some(attrs[0].callback)
    else
      var r := FirstCallback(attrs[1..]);
      assert forall i :: 1 <= i < |attrs| ==> attrs[i] == attrs[1..][i - 1];
      r
  }
}
