/** Option and Result values for the scripts' failure paths: a Python
    exception that ends a script is modelled as an `Err` carrying its kind. */
module Results {

  datatype Option<+T> = None | Some(value: T)

  datatype Result<+T, +E> = Ok(value: T) | Err(error: E)
}
