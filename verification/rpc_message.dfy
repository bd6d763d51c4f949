/**
 * RpcMessage: the immutable request envelope, and `Create`, which stamps a new envelope
 * with a fresh correlation id.
 */
module Messages {

  /** A Guid. `Guid.Empty` is 0. */
  type Guid = nat

  const EmptyGuid: Guid := 0

  /** A point in time (DateTime), in abstract ticks. */
  type Time = int

  /** A return type as the type library knows it: its full name and its stable type ident. */
  datatype TypeDesc = TypeDesc(fullName: string, ident: int)

  /** `TypeLibrary.GetTypeIdent(type)`. */
  function TypeIdent(t: TypeDesc): int
  {
    t.ident
  }

  /** A value that crosses the wire: the ident of its runtime type and its serialized form. */
  datatype Value = Value(typeIdent: int, payload: seq<int>)

  /**
   * The envelope. A readonly struct with init-only properties: a datatype value, which
   * nothing can change after it is built.
   */
  datatype RpcMessage = RpcMessage(
    id: Guid,
    methodIdent: int,
    timestamp: Time,
    sender: Guid,
    methodReturnTypeIdent: int,
    genericArguments: seq<int>)

  /**
   * `Guid.NewGuid()`: a counter that never hands out the same id twice. The ghost set
   * `issued` holds every id handed out so far.
   */
  class GuidSource {
    var next: Guid
    ghost var issued: set<Guid>

    ghost predicate Valid()
      reads this
    {
      && next > EmptyGuid
      && EmptyGuid !in issued
      && forall g :: g in issued ==> g < next
    }

    constructor ()
      ensures Valid() && issued == {}
    {
      next := 1;
      issued := {};
    }

    method NewGuid() returns (g: Guid)
      requires Valid()
      modifies this
      ensures Valid()
      ensures g != EmptyGuid && g !in old(issued)
      ensures issued == old(issued) + {g}
    {
      g := next;
      next := next + 1;
      issued := issued + {g};
    }
  }

  /**
   * `RpcMessage.Create`: a new envelope with a never-before-issued id, the given method ident
   * and sender, the type ident of the given return type, no generic arguments, and the
   * current time as its timestamp.
   */
  method Create(ids: GuidSource, methodIdent: int, methodReturnType: TypeDesc, sender: Guid, now: Time)
    returns (m: RpcMessage)
    requires ids.Valid()
    modifies ids
    ensures ids.Valid()
    ensures m.id != EmptyGuid && m.id !in old(ids.issued) && ids.issued == old(ids.issued) + {m.id}
    ensures m.methodIdent == methodIdent && m.sender == sender
    ensures m.methodReturnTypeIdent == TypeIdent(methodReturnType)
    ensures m.genericArguments == [] && m.timestamp == now
  {
    var methodReturnTypeIdent := TypeIdent(methodReturnType);
    var id := ids.NewGuid();
    m := RpcMessage(id, methodIdent, now, sender, methodReturnTypeIdent, []);
  }
}
