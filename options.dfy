/** Optional values and results with an error message, used for nullable
    columns, absent form fields and the server's error responses. */
module Options {

  datatype Option<+T> = None | Some(value: T)

  datatype Result<+T> = Ok(value: T) | Err(message: string)
}
