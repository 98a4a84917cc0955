/** Option and Result: a missing value, and an error returned where the scripts raise or die. */
module Results {

  datatype Option<+T> = None | Some(value: T)

  datatype Result<+T, +E> = Ok(value: T) | Err(error: E)
}
