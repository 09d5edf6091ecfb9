/** The failure-compatible Option type used for every step that can raise. */
module Optional {

  /** `None` stands for "the Python call raised"; `Some(v)` for a normal return of `v`. */
  datatype Option<+T> = None | Some(value: T) {

    predicate IsFailure() {
      None?
    }

    function PropagateFailure<U>(): Option<U>
      requires None?
    {
      None
    }

    function Extract(): T
      requires Some?
    {
      value
    }
  }
}
