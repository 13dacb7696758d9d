/** Types shared by the modules of the model. */
module Basics {
  /** An absent or present column value (a nullable column). */
  datatype Option<+T> = None | Some(value: T)

  /** Instants, in the resolution of the database clock. */
  type Time = int

  /** SQL COALESCE of a nullable column with a replacement. */
  function Coalesce<T>(x: Option<T>, y: Option<T>): Option<T> {
    if x.Some? then x else y
  }
}
