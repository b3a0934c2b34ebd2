/** Option for the source's null references and Result for its exceptions. */
module Wrappers {

  /** `None` stands for a C# null reference. */
  datatype Option<+T> = None | Some(value: T)

  /** `Thrown(name)` stands for an exception of the named .NET type escaping the call. */
  datatype Result<+T> = Ok(value: T) | Thrown(exception: string)

  /** A call that returns nothing but may throw. */
  datatype Outcome = Done | Fault(exception: string)
}
