/** Vocabulary shared by the two modules of the model. */
module Common {

  /** A Python value that may be None. */
  datatype Option<+T> = None | Some(value: T)

  /** The identity of a callable handed to the library; what it does is not modelled. */
  type CallbackId = nat
}
