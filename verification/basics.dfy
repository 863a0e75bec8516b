/** Shared vocabulary of the simulation kernel: identities, priorities,
    value slots and the error taxonomy that replaces the Kotlin exceptions. */
module Basics {

  /** Identity of an event object (its allocation index in the event table). */
  type Ref = nat
  /** Index of a Store in the environment. */
  type StoreRef = nat
  /** Index of a Server in the environment. */
  type ServerRef = nat

  datatype Option<T> = None | Some(value: T)

  /** The failures a caller can observe. `InvalidArgument` stands for Kotlin's
      `require(...)` (IllegalArgumentException). */
  datatype Error =
    | InvalidArgument
    | EmptySchedule
    | StoreAlreadyInitialized
    | InvalidServerAction

  datatype Result<T> = Ok(value: T) | Err(error: Error)

  /** Event priority; HIGH events win ties on the due time. */
  datatype Priority = Normal | High

  /** The integer carried by each priority constant. */
  function PriorityValue(p: Priority): (v: int)
    ensures 0 <= v <= 1
    ensures v == 1 <==> p == High
  {
    match p
    case Normal => 0
    case High => 1
  }

  /** Status of a ValueEvent's result slot. */
  datatype ValueStatus = Pending | Available | Expired

  /** The values a ValueEvent can carry in this kernel: a store item, the
      server that granted a request, or the child event that fired an AnyOf. */
  datatype Val = ItemVal(item: int) | ServerVal(server: ServerRef) | EventVal(event: Ref)

  /** Sequence concatenation is associative (a helper for the solver). */
  lemma AppendAssoc<T>(a: seq<T>, b: seq<T>, c: seq<T>)
    ensures a + b + c == a + (b + c)
  {
  }
}
