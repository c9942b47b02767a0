/** Optional values and the outcome of an extraction that may throw. */
module Results {

  /** A value that may be missing. Where a numeric field can hold JavaScript's
      NaN, `None` stands for NaN. */
  datatype Option<+T> = None | Some(value: T)

  /** The parser throws only one kind of exception: a `TypeError`, raised when a
      property is read from `null` or `undefined`, or when a value that is not an
      array is asked for `filter` or `find`. */
  datatype Result<+T> = Ok(value: T) | TypeError {

    predicate IsFailure() {
      TypeError?
    }

    function PropagateFailure<U>(): Result<U>
      requires TypeError?
    {
      TypeError
    }

    function Extract(): T
      requires Ok?
    {
      value
    }
  }
}
