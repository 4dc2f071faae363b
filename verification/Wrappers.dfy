/** Small datatypes shared by the models. */
module Wrappers {

  datatype Option<+T> = None | Some(value: T)

  /** A JavaScript number: a finite real, or one of NaN and the infinities. */
  datatype Num = Finite(value: real) | NonFinite
}
