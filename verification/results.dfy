/** Option and Result: the shapes in which the model reports a PHP `null`
    or a thrown exception instead of a value. */
module Results {

  datatype Option<+T> = None | Some(value: T)

  datatype Result<+R, +E> = Success(value: R) | Failure(error: E)
}
