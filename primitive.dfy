/** The small enumerations of the layout primitives that the core refers to. */
module Primitive {

  /** A side of a rectangle. */
  datatype Side = Left | Top | Right | Bottom

  /** A specific axis. */
  datatype SpecAxis = Horizontal | Vertical

  /** An alignment relative to a direction. */
  datatype GenAlign = Start | Center | End
}

/** The usual optional value. */
module Options {

  datatype Option<+T> = None | Some(value: T)
}
