/** Small value wrappers shared by every module of the model. */
module Wrappers {

  /** A value that may be missing; stands for TypeScript's `T | null`. */
  datatype Option<+T> = None | Some(value: T)

  /** The outcome of a call that either returns a value or throws. */
  datatype Result<+T, +E> = Success(value: T) | Failure(error: E)

  /** One field of a loosely-typed JSON object: missing (`undefined`),
      an explicit `null`, or a value. */
  datatype Field<+T> = Absent | Null | Present(value: T)

  /** JavaScript's `f || d` where `d` is the falsy value of the field's type
      (`0`, `''` or `false`): a present value is kept, anything else gives `d`.
      A present falsy value equals `d` anyway, so no further case is needed. */
  function OrDefault<T>(f: Field<T>, d: T): (r: T)
    ensures f.Present? ==> r == f.value
    ensures !f.Present? ==> r == d
  {
    match f
    case Present(v) => v
    case _ => d
  }

  /** A field that may be missing, read as a nullable value: a missing field
      and an explicit null both become `None`. */
  function Nullable<T>(f: Field<T>): (r: Option<T>)
    ensures r.Some? <==> f.Present?
    ensures r.Some? ==> r.value == f.value
  {
    match f
    case Present(v) => Some(v)
    case _ => None
  }
}
